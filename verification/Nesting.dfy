/**
 * Which parent a worktree may be given, if any (src/shared/nesting.ts): what the records allow is
 * proved to be exactly what keeps them a forest and, for agents, within the depth and fan-out limits.
 */
module Nesting {
  import opened Wrappers
  import opened TaskTree

  const MAX_CHILD_DEPTH := 3
  const MAX_OPEN_CHILDREN := 6

  datatype Refusal = Same | Teammate | Missing | NotReady | OtherProject | Unchanged | Cycle | Depth | Children

  // ---------------------------------------------------------------- parent links

  /** Each worktree whose parent is there, and that parent. */
  type Links = map<string, string>

  /** The `n`th ancestor. */
  function Climb(up: Links, id: string, n: nat): Option<string> {
    if n == 0 then Some(id)
    else
      var below := Climb(up, id, n - 1);
      if below.None? || below.value !in up then None else Some(up[below.value])
  }

  ghost predicate Acyclic(up: Links) {
    forall id, n: nat {:trigger Climb(up, id, n)} :: n > 0 ==> Climb(up, id, n) != Some(id)
  }

  ghost predicate InSubtree(up: Links, id: string, root: string) {
    exists n: nat :: Climb(up, id, n) == Some(root)
  }

  predicate DepthAtMost(up: Links, id: string, depth: nat) {
    Climb(up, id, depth + 1).None?
  }

  lemma {:induction false} ClimbTwice(up: Links, id: string, n: nat, m: nat)
    requires Climb(up, id, n).Some?
    ensures Climb(up, id, n + m) == Climb(up, Climb(up, id, n).value, m)
  {
    if m > 0 {
      ClimbTwice(up, id, n, m - 1);
    }
  }

  lemma {:induction false} ClimbEnds(up: Links, id: string, n: nat, m: nat)
    requires n <= m && Climb(up, id, n).None?
    ensures Climb(up, id, m).None?
  {
    if n < m {
      ClimbEnds(up, id, n, m - 1);
    }
  }

  lemma ClimbOver(up: Links, id: string, from: string, n: nat, m: nat)
    requires Climb(up, from, n) == Some(id) && id in up
    ensures Climb(up, from, n + 1 + m) == Climb(up, up[id], m)
  {
    assert Climb(up, from, n + 1) == Some(up[id]);
    ClimbTwice(up, from, n + 1, m);
  }

  lemma RotateCycle(up: Links, from: string, n: nat, id: string, k: nat)
    requires Climb(up, from, n) == Some(from) && Climb(up, from, k) == Some(id)
    ensures Climb(up, id, n) == Some(id)
  {
    ClimbTwice(up, from, n, k);
    ClimbTwice(up, from, k, n);
    assert n + k == k + n;
  }

  lemma CycleUsesParent(up: Links, id: string, n: nat)
    requires n > 0 && Climb(up, id, n) == Some(id)
    ensures id in up && Climb(up, up[id], n - 1) == Some(id)
  {
    assert Climb(up, id, 0) == Some(id);
    if id in up {
      assert Climb(up, id, 1) == Some(up[id]);
      ClimbTwice(up, id, 1, n - 1);
    } else {
      assert Climb(up, id, 1).None?;
      ClimbEnds(up, id, 1, n);
    }
  }

  lemma {:induction false} FirstMeeting(up: Links, from: string, n: nat, id: string) returns (first: nat)
    requires Climb(up, from, n) == Some(id)
    ensures first <= n && Climb(up, from, first) == Some(id)
    ensures forall k: nat {:trigger Climb(up, from, k)} :: k < first ==> Climb(up, from, k) != Some(id)
  {
    first := 0;
    while Climb(up, from, first) != Some(id)
      invariant first <= n
      invariant forall k: nat {:trigger Climb(up, from, k)} :: k < first ==> Climb(up, from, k) != Some(id)
      decreases n - first
    {
      first := first + 1;
    }
  }

  // ---------------------------------------------------------------- one link changed

  /** The two agree on every link but that of `id`. */
  ghost predicate DifferAt(a: Links, b: Links, id: string) {
    forall x {:trigger x in a} {:trigger x in b} :: x != id ==> (x in a <==> x in b) && (x in a ==> a[x] == b[x])
  }

  /** Up to where it meets the changed link, a climb is the same in both. */
  lemma {:induction false} ClimbChanged(a: Links, b: Links, id: string, from: string, n: nat)
    requires DifferAt(a, b, id)
    requires forall k: nat {:trigger Climb(a, from, k)} :: k < n ==> Climb(a, from, k) != Some(id)
    ensures Climb(b, from, n) == Climb(a, from, n)
  {
    if n > 0 {
      ClimbChanged(a, b, id, from, n - 1);
    }
  }

  /** Meeting the changed worktree at all is the same in both. */
  lemma MeetsInBoth(a: Links, b: Links, id: string, from: string, n: nat) returns (first: nat)
    requires DifferAt(a, b, id) && Climb(a, from, n) == Some(id)
    ensures first <= n && Climb(a, from, first) == Some(id) && Climb(b, from, first) == Some(id)
  {
    first := FirstMeeting(a, from, n, id);
    ClimbChanged(a, b, id, from, first);
  }

  /** A cycle the change makes goes through the worktree changed, so its new parent was below it. */
  lemma CycleGoesThrough(a: Links, b: Links, id: string, from: string, n: nat)
    requires Acyclic(a) && DifferAt(b, a, id) && n > 0 && Climb(b, from, n) == Some(from)
    ensures id in b && InSubtree(a, b[id], id)
  {
    if forall k: nat {:trigger Climb(b, from, k)} :: k < n ==> Climb(b, from, k) != Some(id) {
      ClimbChanged(b, a, id, from, n);
    } else {
      var k: nat :| k < n && Climb(b, from, k) == Some(id);
      RotateCycle(b, from, n, id, k);
      CycleUsesParent(b, id, n);
      var first := MeetsInBoth(b, a, id, b[id], n - 1);
    }
  }

  lemma CycleIfBelow(a: Links, b: Links, id: string, n: nat)
    requires DifferAt(a, b, id) && id in b && Climb(a, b[id], n) == Some(id)
    ensures !Acyclic(b)
  {
    var first := MeetsInBoth(a, b, id, b[id], n);
    ClimbOver(b, id, b[id], first, 0);
    assert Climb(b, b[id], 0) == Some(b[id]);
    assert Climb(b, b[id], first + 1 + 0) == Some(b[id]);
  }

  /** Changing one link keeps the links acyclic exactly when its new end is neither the worktree nor below it. */
  lemma AcyclicExactly(a: Links, b: Links, id: string)
    requires Acyclic(a) && DifferAt(a, b, id)
    ensures Acyclic(b) <==> id !in b || !InSubtree(a, b[id], id)
  {
    if id in b && InSubtree(a, b[id], id) {
      var n: nat :| Climb(a, b[id], n) == Some(id);
      CycleIfBelow(a, b, id, n);
    } else {
      forall from: string, n: nat {:trigger Climb(b, from, n)} | n > 0
        ensures Climb(b, from, n) != Some(from)
      {
        if Climb(b, from, n) == Some(from) {
          CycleGoesThrough(a, b, id, from, n);
        }
      }
    }
  }

  // ---------------------------------------------------------------- ancestry

  function Seen(chain: seq<string>): set<string> {
    set id | id in chain
  }

  lemma MoreIsLessLeft(up: Links, chain: seq<string>, id: string)
    requires id in up && up[id] !in chain
    ensures |up.Values - Seen(chain + [up[id]])| < |up.Values - Seen(chain)|
  {
    var less, more := Seen(chain), Seen(chain + [up[id]]);
    assert up[id] in more && up[id] !in less && up[id] in up.Values;
    MoreSeenIsLessLeft(up.Values, less, more);
  }

  /** The worktree and what is above it, until a record is missing or the records go round. */
  function AncestryFrom(up: Links, chain: seq<string>): (whole: seq<string>)
    requires chain != []
    ensures |chain| <= |whole| && whole[..|chain|] == chain
    decreases |up.Values - Seen(chain)|
  {
    var at := chain[|chain| - 1];
    if at !in up || up[at] in chain then chain
    else
      MoreIsLessLeft(up, chain, at);
      AncestryFrom(up, chain + [up[at]])
  }

  method Ancestry(up: Links, id: string) returns (chain: seq<string>)
    ensures chain == AncestryFrom(up, [id])
  {
    chain := [id];
    var at := id;
    while at in up && up[at] !in chain
      invariant chain != [] && at == chain[|chain| - 1]
      invariant AncestryFrom(up, chain) == AncestryFrom(up, [id])
      decreases |up.Values - Seen(chain)|
    {
      MoreIsLessLeft(up, chain, at);
      chain := chain + [up[at]];
      at := up[at];
    }
  }

  ghost predicate Climbed(up: Links, id: string, chain: seq<string>) {
    chain != [] && forall k :: 0 <= k < |chain| ==> Climb(up, id, k) == Some(chain[k])
  }

  lemma NextIsNew(up: Links, id: string, chain: seq<string>, next: string)
    requires Acyclic(up) && Climbed(up, id, chain) && Climb(up, id, |chain|) == Some(next)
    ensures next !in chain && Climbed(up, id, chain + [next])
  {
    forall j | 0 <= j < |chain|
      ensures chain[j] != next
    {
      assert Climb(up, id, j) == Some(chain[j]);
      ClimbTwice(up, id, j, |chain| - j);
      assert Climb(up, chain[j], |chain| - j) != Some(chain[j]);
    }
  }

  lemma {:induction false} ChainIsClimbed(up: Links, id: string, chain: seq<string>)
    requires Acyclic(up) && Climbed(up, id, chain)
    ensures var whole := AncestryFrom(up, chain); Climbed(up, id, whole) && whole[|whole| - 1] !in up
    decreases |up.Values - Seen(chain)|
  {
    var at := chain[|chain| - 1];
    assert Climb(up, id, |chain| - 1) == Some(at);
    if at in up {
      NextIsNew(up, id, chain, up[at]);
      MoreIsLessLeft(up, chain, at);
      ChainIsClimbed(up, id, chain + [up[at]]);
    }
  }

  /** The ancestry of a worktree is as long as the climb from it. */
  lemma ChainIsClimb(up: Links, id: string)
    requires Acyclic(up)
    ensures var n := |AncestryFrom(up, [id])|; Climb(up, id, n - 1).Some? && Climb(up, id, n).None?
  {
    var whole := AncestryFrom(up, [id]);
    ChainIsClimbed(up, id, [id]);
    assert Climb(up, id, |whole| - 1) == Some(whole[|whole| - 1]);
  }

  // ---------------------------------------------------------------- the records

  function Lookup(worktrees: seq<Node>, id: string): (node: Option<Node>)
    ensures node.Some? ==> node.value in worktrees && node.value.id == id
    ensures node.None? ==> id !in Ids(worktrees)
  {
    if worktrees == [] then None
    else
      var last := worktrees[|worktrees| - 1];
      if last.id == id then Some(last) else Lookup(worktrees[..|worktrees| - 1], id)
  }

  predicate Distinct(worktrees: seq<Node>) {
    forall i, j :: 0 <= i < j < |worktrees| ==> worktrees[i].id != worktrees[j].id
  }

  /** The parent, when its record is there. */
  function Up(worktrees: seq<Node>, id: string): Option<string> {
    var node := Lookup(worktrees, id);
    if node.None? || node.value.parentId.None? || Lookup(worktrees, node.value.parentId.value).None? then None
    else node.value.parentId
  }

  function LinksOf(worktrees: seq<Node>): (up: Links)
    ensures forall id :: id in up <==> Up(worktrees, id).Some?
    ensures forall id :: id in up ==> up[id] == Up(worktrees, id).value
  {
    map id | id in Ids(worktrees) && Up(worktrees, id).Some? :: Up(worktrees, id).value
  }

  ghost predicate Forest(worktrees: seq<Node>) {
    Distinct(worktrees) && Acyclic(LinksOf(worktrees))
  }

  function ChildrenOf(worktrees: seq<Node>, id: string): nat {
    if worktrees == [] then 0
    else
      ChildrenOf(worktrees[..|worktrees| - 1], id) +
      if worktrees[|worktrees| - 1].parentId == Some(id) then 1 else 0
  }

  /** The records once `id` is put under `parentId`. */
  function Moved(worktrees: seq<Node>, id: string, parentId: Option<string>): (next: seq<Node>)
    ensures |next| == |worktrees|
    ensures forall i :: 0 <= i < |next| ==> next[i] == if worktrees[i].id == id then worktrees[i].(parentId := parentId) else worktrees[i]
  {
    seq(|worktrees|, i requires 0 <= i < |worktrees| =>
      if worktrees[i].id == id then worktrees[i].(parentId := parentId) else worktrees[i])
  }

  lemma {:induction false} LookupAt(worktrees: seq<Node>, i: nat)
    requires Distinct(worktrees) && i < |worktrees|
    ensures Lookup(worktrees, worktrees[i].id) == Some(worktrees[i])
  {
    var front := worktrees[..|worktrees| - 1];
    if i < |front| {
      LookupAt(front, i);
      assert worktrees[i].id != worktrees[|worktrees| - 1].id;
    }
  }

  lemma ChildIsUp(worktrees: seq<Node>, above: string, below: string)
    requires Distinct(worktrees) && Lookup(worktrees, above).Some?
    ensures IsChild(worktrees, above, below) <==> Up(worktrees, below) == Some(above)
  {
    if IsChild(worktrees, above, below) {
      var i :| 0 <= i < |worktrees| && worktrees[i].id == below && worktrees[i].parentId == Some(above);
      LookupAt(worktrees, i);
    }
    if Up(worktrees, below) == Some(above) {
      var node := Lookup(worktrees, below).value;
      var i :| 0 <= i < |worktrees| && worktrees[i] == node;
    }
  }

  predicate Linked(up: Links, path: seq<string>, k: nat)
    requires k + 1 < |path|
  {
    path[k + 1] in up && up[path[k + 1]] == path[k]
  }

  lemma LinkedByPath(worktrees: seq<Node>, path: seq<string>, k: nat)
    requires Distinct(worktrees) && Path(worktrees, path) && k + 1 < |path| && Lookup(worktrees, path[0]).Some?
    ensures Linked(LinksOf(worktrees), path, k)
  {
    assert IsChild(worktrees, path[k], path[k + 1]);
    if k > 0 {
      assert IsChild(worktrees, path[k - 1], path[k]);
      var i :| 0 <= i < |worktrees| && worktrees[i].id == path[k];
      LookupAt(worktrees, i);
    }
    ChildIsUp(worktrees, path[k], path[k + 1]);
  }

  lemma {:induction false} PathClimbs(up: Links, path: seq<string>, k: nat)
    requires k < |path| && forall j :: 0 <= j < |path| - 1 ==> Linked(up, path, j)
    ensures Climb(up, path[k], k) == Some(path[0])
  {
    if k > 0 {
      PathClimbs(up, path, k - 1);
      assert Linked(up, path, k - 1);
      ClimbOver(up, path[k], path[k], 0, k - 1);
    }
  }

  lemma {:induction false} ClimbReaches(worktrees: seq<Node>, id: string, n: nat, above: string)
    requires Distinct(worktrees) && n > 0 && Climb(LinksOf(worktrees), id, n) == Some(above)
    ensures Reachable(worktrees, above, id)
    decreases n
  {
    var below := Climb(LinksOf(worktrees), id, n - 1).value;
    assert Up(worktrees, below) == Some(above);
    ChildIsUp(worktrees, above, below);
    if n == 1 {
      ChildIsReachable(worktrees, above, id);
    } else {
      ClimbReaches(worktrees, id, n - 1, below);
      ReachFurther(worktrees, above, below, id);
    }
  }

  /** The walk under a worktree finds exactly the worktrees a climb leads from, that worktree aside. */
  lemma FoundIsBelow(worktrees: seq<Node>, root: string, id: string)
    requires Distinct(worktrees) && Lookup(worktrees, root).Some?
    ensures InSubtree(LinksOf(worktrees), id, root) <==> id == root || id in IdsOf(Descendants(worktrees, root))
  {
    DescendantsAreTheReachable(worktrees, root);
    if id != root && Reachable(worktrees, root, id) {
      var path :| Connects(worktrees, path, root, id);
      forall j | 0 <= j < |path| - 1
        ensures Linked(LinksOf(worktrees), path, j)
      {
        LinkedByPath(worktrees, path, j);
      }
      PathClimbs(LinksOf(worktrees), path, |path| - 1);
    } else if id != root && InSubtree(LinksOf(worktrees), id, root) {
      var n: nat :| Climb(LinksOf(worktrees), id, n) == Some(root);
      ClimbReaches(worktrees, id, n, root);
    } else if id == root {
      assert Climb(LinksOf(worktrees), id, 0) == Some(root);
    }
  }

  // ---------------------------------------------------------------- the checks

  predicate IsTeammate(id: string) {
    |id| >= 5 && id[..5] == "peer:"
  }

  datatype Measured = Measured(height: nat, seen: set<string>)

  function Higher(a: nat, b: nat): nat {
    if a < b then b else a
  }

  /** The levels under `parentId` from the `i`th record on, and what has been seen by then. */
  function Levels(worktrees: seq<Node>, parentId: string, seen: set<string>, i: nat): (m: Measured)
    requires i <= |worktrees|
    ensures m.seen == Walk(worktrees, parentId, seen, i).seen
    decreases |Ids(worktrees) - seen|, |worktrees| - i
  {
    if i == |worktrees| then Measured(0, seen)
    else if worktrees[i].parentId != Some(parentId) || worktrees[i].id in seen then Levels(worktrees, parentId, seen, i + 1)
    else
      var w := worktrees[i];
      MoreSeenIsLessLeft(Ids(worktrees), seen, seen + {w.id});
      var below := Levels(worktrees, w.id, seen + {w.id}, 0);
      MoreSeenIsLessLeft(Ids(worktrees), seen, below.seen);
      var rest := Levels(worktrees, parentId, below.seen, i + 1);
      Measured(Higher(1 + below.height, rest.height), rest.seen)
  }

  function SubtreeHeight(worktrees: seq<Node>, id: string): nat {
    Levels(worktrees, id, {id}, 0).height
  }

  class HeightWalk {
    const worktrees: seq<Node>
    var seen: set<string>

    constructor (worktrees: seq<Node>)
      ensures this.worktrees == worktrees && seen == {}
    {
      this.worktrees := worktrees;
      seen := {};
    }

    method Height(id: string) returns (height: nat)
      modifies this
      ensures Measured(height, seen) == Levels(worktrees, id, old(seen) + {id}, 0)
      decreases |Ids(worktrees) - (seen + {id})|
    {
      seen := seen + {id};
      ghost var start := seen;
      height := 0;
      for i := 0 to |worktrees|
        invariant start <= seen
        invariant var rest := Levels(worktrees, id, seen, i);
                  Measured(Higher(height, rest.height), rest.seen) == Levels(worktrees, id, start, 0)
      {
        var worktree := worktrees[i];
        if worktree.parentId == Some(id) && worktree.id !in seen {
          MoreSeenIsLessLeft(Ids(worktrees), seen, seen + {worktree.id});
          MoreSeenIsLessLeft(Ids(worktrees), start, seen);
          var below := Height(worktree.id);
          height := Higher(height, 1 + below);
        }
      }
    }
  }

  function NestRefusal(worktrees: seq<Node>, worktreeId: string, parentId: Option<string>, limited: bool): Option<Refusal> {
    if IsTeammate(worktreeId) || (parentId.Some? && IsTeammate(parentId.value)) then Some(Teammate)
    else if parentId == Some(worktreeId) then Some(Same)
    else
      var child := Lookup(worktrees, worktreeId);
      var parent := if parentId.None? then None else Lookup(worktrees, parentId.value);
      if child.None? || (parentId.Some? && parent.None?) then Some(Missing)
      else if child.value.state != Ready || (parent.Some? && parent.value.state != Ready) then Some(NotReady)
      else if parent.None? then if child.value.parentId.None? then Some(Unchanged) else None
      else if parent.value.projectId != child.value.projectId then Some(OtherProject)
      else if child.value.parentId == parentId then Some(Unchanged)
      else if parentId.value in IdsOf(Descendants(worktrees, worktreeId)) then Some(Cycle)
      else if !limited then None
      else if |AncestryFrom(LinksOf(worktrees), [parentId.value])| + SubtreeHeight(worktrees, worktreeId) > MAX_CHILD_DEPTH then Some(Depth)
      else if ChildrenOf(worktrees, parentId.value) >= MAX_OPEN_CHILDREN then Some(Children)
      else None
  }

  // ---------------------------------------------------------------- a move

  lemma {:induction false} LookupMoved(worktrees: seq<Node>, id: string, parentId: Option<string>, other: string)
    ensures Lookup(Moved(worktrees, id, parentId), other) ==
              if Lookup(worktrees, other).Some? && other == id then Some(Lookup(worktrees, other).value.(parentId := parentId))
              else Lookup(worktrees, other)
  {
    if worktrees != [] {
      var front := worktrees[..|worktrees| - 1];
      LookupMoved(front, id, parentId, other);
      assert Moved(worktrees, id, parentId)[..|front|] == Moved(front, id, parentId);
    }
  }

  predicate Known(worktrees: seq<Node>, id: string, parentId: Option<string>) {
    Lookup(worktrees, id).Some? && (parentId.Some? ==> Lookup(worktrees, parentId.value).Some?)
  }

  /** A move changes one link, to the parent asked for. */
  lemma MovedLinks(worktrees: seq<Node>, id: string, parentId: Option<string>)
    requires Known(worktrees, id, parentId)
    ensures DifferAt(LinksOf(worktrees), LinksOf(Moved(worktrees, id, parentId)), id)
    ensures Up(Moved(worktrees, id, parentId), id) == parentId
  {
    var moved := Moved(worktrees, id, parentId);
    forall x | x != id
      ensures Up(moved, x) == Up(worktrees, x)
    {
      LookupMoved(worktrees, id, parentId, x);
      var node := Lookup(worktrees, x);
      if node.Some? && node.value.parentId.Some? {
        LookupMoved(worktrees, id, parentId, node.value.parentId.value);
      }
    }
    LookupMoved(worktrees, id, parentId, id);
    if parentId.Some? {
      LookupMoved(worktrees, id, parentId, parentId.value);
    }
  }

  // ---------------------------------------------------------------- the height of a subtree

  ghost predicate Within(up: Links, id: string, root: string, levels: nat) {
    exists m: nat :: 1 <= m <= levels && Climb(up, id, m) == Some(root)
  }

  lemma WithinMore(up: Links, id: string, root: string, levels: nat, more: nat)
    requires Within(up, id, root, levels) && levels <= more
    ensures Within(up, id, root, more)
  {
    var m: nat :| 1 <= m <= levels && Climb(up, id, m) == Some(root);
  }

  lemma WithinNext(up: Links, child: string, id: string, levels: nat)
    requires child in up && Within(up, id, child, levels)
    ensures Within(up, id, up[child], levels + 1)
  {
    var m: nat :| 1 <= m <= levels && Climb(up, id, m) == Some(child);
    assert Climb(up, id, m + 1) == Some(up[child]);
  }

  ghost predicate AllWithin(up: Links, found: seq<Node>, root: string, levels: nat) {
    forall k :: 0 <= k < |found| ==> Within(up, found[k].id, root, levels)
  }

  lemma StepBound(up: Links, w: Node, below: seq<Node>, low: nat, rest: seq<Node>, other: nat)
    requires w.id in up && AllWithin(up, below, w.id, low) && AllWithin(up, rest, up[w.id], other)
    ensures AllWithin(up, [w] + below + rest, up[w.id], Higher(1 + low, other))
  {
    var found := [w] + below + rest;
    var levels := Higher(1 + low, other);
    assert Climb(up, w.id, 0) == Some(w.id);
    assert Climb(up, w.id, 1) == Some(up[w.id]);
    forall k | 0 <= k < |found|
      ensures Within(up, found[k].id, up[w.id], levels)
    {
      if k == 0 {
        assert found[0] == w;
      } else if k <= |below| {
        assert found[k] == below[k - 1];
        WithinNext(up, w.id, below[k - 1].id, low);
        WithinMore(up, below[k - 1].id, up[w.id], low + 1, levels);
      } else {
        assert found[k] == rest[k - 1 - |below|];
        WithinMore(up, rest[k - 1 - |below|].id, up[w.id], other, levels);
      }
    }
  }

  /** Every record whose parent is there is linked to it. */
  ghost predicate AllLinked(worktrees: seq<Node>, up: Links) {
    forall i :: 0 <= i < |worktrees| && worktrees[i].parentId.Some? && worktrees[i].parentId.value in Ids(worktrees) ==>
      worktrees[i].id in up && up[worktrees[i].id] == worktrees[i].parentId.value
  }

  lemma LinksOfAll(worktrees: seq<Node>)
    requires Distinct(worktrees)
    ensures AllLinked(worktrees, LinksOf(worktrees))
  {
    forall i | 0 <= i < |worktrees| && worktrees[i].parentId.Some? && worktrees[i].parentId.value in Ids(worktrees)
      ensures Up(worktrees, worktrees[i].id) == worktrees[i].parentId
    {
      LookupAt(worktrees, i);
    }
  }

  /** Everything the walk finds is within the levels it counts. */
  lemma {:induction false} LevelsBound(worktrees: seq<Node>, up: Links, root: string, seen: set<string>, i: nat)
    requires AllLinked(worktrees, up) && root in Ids(worktrees) && i <= |worktrees|
    ensures AllWithin(up, Walk(worktrees, root, seen, i).found, root, Levels(worktrees, root, seen, i).height)
    decreases |Ids(worktrees) - seen|, |worktrees| - i
  {
    if i == |worktrees| {
    } else if worktrees[i].parentId != Some(root) || worktrees[i].id in seen {
      LevelsBound(worktrees, up, root, seen, i + 1);
    } else {
      var w := worktrees[i];
      MoreSeenIsLessLeft(Ids(worktrees), seen, seen + {w.id});
      var below := Walk(worktrees, w.id, seen + {w.id}, 0);
      MoreSeenIsLessLeft(Ids(worktrees), seen, below.seen);
      LevelsBound(worktrees, up, w.id, seen + {w.id}, 0);
      LevelsBound(worktrees, up, root, below.seen, i + 1);
      StepBound(up, w, below.found, Levels(worktrees, w.id, seen + {w.id}, 0).height,
                Walk(worktrees, root, below.seen, i + 1).found, Levels(worktrees, root, below.seen, i + 1).height);
    }
  }

  /** The levels counted are really there. */
  lemma {:induction false} LevelsReached(worktrees: seq<Node>, up: Links, root: string, seen: set<string>, i: nat) returns (deepest: string)
    requires AllLinked(worktrees, up) && root in Ids(worktrees) && i <= |worktrees|
    ensures Climb(up, deepest, Levels(worktrees, root, seen, i).height) == Some(root)
    decreases |Ids(worktrees) - seen|, |worktrees| - i
  {
    if i == |worktrees| {
      deepest := root;
    } else if worktrees[i].parentId != Some(root) || worktrees[i].id in seen {
      deepest := LevelsReached(worktrees, up, root, seen, i + 1);
    } else {
      var w := worktrees[i];
      MoreSeenIsLessLeft(Ids(worktrees), seen, seen + {w.id});
      var below := Levels(worktrees, w.id, seen + {w.id}, 0);
      MoreSeenIsLessLeft(Ids(worktrees), seen, below.seen);
      var low := LevelsReached(worktrees, up, w.id, seen + {w.id}, 0);
      var other := LevelsReached(worktrees, up, root, below.seen, i + 1);
      OneHigher(up, low, below.height, w.id);
      deepest := if 1 + below.height < Levels(worktrees, root, below.seen, i + 1).height then other else low;
    }
  }

  lemma OneHigher(up: Links, id: string, n: nat, child: string)
    requires child in up && Climb(up, id, n) == Some(child)
    ensures Climb(up, id, 1 + n) == Some(up[child])
  {
  }

  lemma OneWayUp(up: Links, id: string, root: string, n: nat, m: nat)
    requires Acyclic(up) && Climb(up, id, n) == Some(root) && Climb(up, id, m) == Some(root) && n <= m
    ensures n == m
  {
    ClimbTwice(up, id, n, m - n);
  }

  /** In a forest the height is that of the subtree: no worktree is further below, and one is as far. */
  lemma HeightIsExact(worktrees: seq<Node>, root: string) returns (deepest: string)
    requires Forest(worktrees) && Lookup(worktrees, root).Some?
    ensures Climb(LinksOf(worktrees), deepest, SubtreeHeight(worktrees, root)) == Some(root)
    ensures forall id, n: nat {:trigger Climb(LinksOf(worktrees), id, n)} ::
              Climb(LinksOf(worktrees), id, n) == Some(root) ==> n <= SubtreeHeight(worktrees, root)
  {
    var up := LinksOf(worktrees);
    LinksOfAll(worktrees);
    deepest := LevelsReached(worktrees, up, root, {root}, 0);
    forall id, n: nat {:trigger Climb(up, id, n)} | Climb(up, id, n) == Some(root)
      ensures n <= SubtreeHeight(worktrees, root)
    {
      if n > 0 {
        FoundIsBelow(worktrees, root, id);
        BoundedBelow(worktrees, root, id, n);
      }
    }
  }

  lemma BoundedBelow(worktrees: seq<Node>, root: string, id: string, n: nat)
    requires Forest(worktrees) && Lookup(worktrees, root).Some? && n > 0 && Climb(LinksOf(worktrees), id, n) == Some(root)
    ensures n <= SubtreeHeight(worktrees, root)
  {
    var up := LinksOf(worktrees);
    var found := Descendants(worktrees, root);
    assert id != root;
    FoundIsBelow(worktrees, root, id);
    LinksOfAll(worktrees);
    LevelsBound(worktrees, up, root, {root}, 0);
    var k :| 0 <= k < |found| && IdsOf(found)[k] == id;
    assert Within(up, found[k].id, root, SubtreeHeight(worktrees, root));
    var m: nat :| 1 <= m <= SubtreeHeight(worktrees, root) && Climb(up, id, m) == Some(root);
    if m < n {
      OneWayUp(up, id, root, m, n);
    }
  }

  // ---------------------------------------------------------------- what a move leaves

  /** Ids whose climb from `parent` misses `id` climb alike in both. */
  lemma ClearClimb(a: Links, b: Links, id: string, parent: string, n: nat)
    requires DifferAt(a, b, id) && !InSubtree(a, parent, id)
    ensures Climb(b, parent, n) == Climb(a, parent, n)
  {
    ClimbChanged(a, b, id, parent, n);
  }

  lemma DeepEnough(a: Links, b: Links, id: string, length: nat, height: nat, x: string, n: nat, depth: nat)
    requires Acyclic(b) && DifferAt(b, a, id) && id in b && Climb(b, b[id], length).None?
    requires forall y, k: nat {:trigger Climb(a, y, k)} :: Climb(a, y, k) == Some(id) ==> k <= height
    requires length + height <= depth && Climb(b, x, n) == Some(id)
    ensures DepthAtMost(b, x, depth)
  {
    var first := MeetsInBoth(b, a, id, x, n);
    OneWayUp(b, x, id, first, n);
    ClimbOver(b, id, x, n, length);
    ClimbEnds(b, x, n + 1 + length, depth + 1);
  }

  lemma TooDeep(a: Links, b: Links, id: string, length: nat, height: nat, deepest: string, depth: nat)
    requires Acyclic(a) && DifferAt(a, b, id) && id in b && length > 0 && Climb(b, b[id], length - 1).Some?
    requires Climb(a, deepest, height) == Some(id) && length + height > depth
    ensures InSubtree(b, deepest, id) && !DepthAtMost(b, deepest, depth)
  {
    var first := MeetsInBoth(a, b, id, deepest, height);
    OneWayUp(a, deepest, id, first, height);
    ClimbOver(b, id, deepest, height, length - 1);
    if Climb(b, deepest, depth + 1).None? {
      ClimbEnds(b, deepest, depth + 1, height + 1 + (length - 1));
    }
  }

  ghost predicate SubtreeWithin(up: Links, id: string, depth: nat) {
    forall x :: InSubtree(up, x, id) ==> DepthAtMost(up, x, depth)
  }

  lemma DepthOfLinks(a: Links, b: Links, id: string, length: nat, height: nat, deepest: string, depth: nat)
    requires Acyclic(a) && Acyclic(b) && DifferAt(a, b, id) && id in b
    requires length > 0 && Climb(b, b[id], length - 1).Some? && Climb(b, b[id], length).None?
    requires Climb(a, deepest, height) == Some(id)
    requires forall y, k: nat {:trigger Climb(a, y, k)} :: Climb(a, y, k) == Some(id) ==> k <= height
    ensures length + height <= depth <==> SubtreeWithin(b, id, depth)
  {
    if length + height <= depth {
      forall x | InSubtree(b, x, id)
        ensures DepthAtMost(b, x, depth)
      {
        var n: nat :| Climb(b, x, n) == Some(id);
        DeepEnough(a, b, id, length, height, x, n, depth);
      }
    } else {
      TooDeep(a, b, id, length, height, deepest, depth);
    }
  }

  /** The ancestry's length and the subtree's height add up to how deep the move puts the deepest of the subtree. */
  lemma DepthIsExact(worktrees: seq<Node>, id: string, parent: string, depth: nat)
    requires Forest(worktrees) && Known(worktrees, id, Some(parent)) && !InSubtree(LinksOf(worktrees), parent, id)
    ensures |AncestryFrom(LinksOf(worktrees), [parent])| + SubtreeHeight(worktrees, id) <= depth <==>
              SubtreeWithin(LinksOf(Moved(worktrees, id, Some(parent))), id, depth)
  {
    var a, b := LinksOf(worktrees), LinksOf(Moved(worktrees, id, Some(parent)));
    MovedLinks(worktrees, id, Some(parent));
    AcyclicExactly(a, b, id);
    var length := AncestryAfter(a, b, id, parent);
    var deepest := HeightIsExact(worktrees, id);
    DepthOfLinks(a, b, id, length, SubtreeHeight(worktrees, id), deepest, depth);
  }

  lemma AncestryAfter(a: Links, b: Links, id: string, parent: string) returns (length: nat)
    requires Acyclic(a) && DifferAt(a, b, id) && !InSubtree(a, parent, id)
    ensures length == |AncestryFrom(a, [parent])| && length > 0
    ensures Climb(b, parent, length - 1).Some? && Climb(b, parent, length).None?
  {
    length := |AncestryFrom(a, [parent])|;
    ChainIsClimb(a, parent);
    ClearClimb(a, b, id, parent, length);
    ClearClimb(a, b, id, parent, length - 1);
  }

  lemma {:induction false} OneMoreChild(worktrees: seq<Node>, id: string, parent: string)
    requires Distinct(worktrees) && Lookup(worktrees, id).Some? && Lookup(worktrees, id).value.parentId != Some(parent)
    ensures ChildrenOf(Moved(worktrees, id, Some(parent)), parent) == ChildrenOf(worktrees, parent) + 1
  {
    var front := worktrees[..|worktrees| - 1];
    assert Moved(worktrees, id, Some(parent))[..|front|] == Moved(front, id, Some(parent));
    if worktrees[|front|].id == id {
      assert Moved(front, id, Some(parent)) == front;
    } else {
      OneMoreChild(front, id, parent);
    }
  }

  ghost predicate Limited(next: seq<Node>, id: string, parentId: Option<string>) {
    parentId.Some? ==> SubtreeWithin(LinksOf(next), id, MAX_CHILD_DEPTH) && ChildrenOf(next, parentId.value) <= MAX_OPEN_CHILDREN
  }

  /** What the records must be for a move to be worth asking git about. */
  predicate Movable(worktrees: seq<Node>, id: string, parentId: Option<string>) {
    && !IsTeammate(id) && (parentId.Some? ==> !IsTeammate(parentId.value)) && Known(worktrees, id, parentId)
    && var child := Lookup(worktrees, id).value;
       && child.state == Ready && child.parentId != parentId
       && (parentId.Some? ==>
             var parent := Lookup(worktrees, parentId.value).value;
             parent.state == Ready && parent.projectId == child.projectId)
  }

  lemma CycleIsExact(worktrees: seq<Node>, id: string, parentId: Option<string>)
    requires Forest(worktrees) && Known(worktrees, id, parentId)
    ensures Forest(Moved(worktrees, id, parentId)) <==>
              parentId.None? || (parentId.value != id && parentId.value !in IdsOf(Descendants(worktrees, id)))
  {
    MovedLinks(worktrees, id, parentId);
    AcyclicExactly(LinksOf(worktrees), LinksOf(Moved(worktrees, id, parentId)), id);
    if parentId.Some? {
      FoundIsBelow(worktrees, id, parentId.value);
    }
  }

  lemma LimitsAreExact(worktrees: seq<Node>, id: string, parent: string)
    requires Forest(worktrees) && Movable(worktrees, id, Some(parent)) && Forest(Moved(worktrees, id, Some(parent)))
    ensures Limited(Moved(worktrees, id, Some(parent)), id, Some(parent)) <==>
              && |AncestryFrom(LinksOf(worktrees), [parent])| + SubtreeHeight(worktrees, id) <= MAX_CHILD_DEPTH
              && ChildrenOf(worktrees, parent) < MAX_OPEN_CHILDREN
  {
    CycleIsExact(worktrees, id, Some(parent));
    FoundIsBelow(worktrees, id, parent);
    DepthIsExact(worktrees, id, parent, MAX_CHILD_DEPTH);
    OneMoreChild(worktrees, id, parent);
  }

  lemma UnmovableIsRefused(worktrees: seq<Node>, id: string, parentId: Option<string>, limited: bool)
    requires !Movable(worktrees, id, parentId)
    ensures NestRefusal(worktrees, id, parentId, limited).Some?
  {
  }

  lemma RefusalOfMovable(worktrees: seq<Node>, id: string, parentId: Option<string>, limited: bool)
    requires Movable(worktrees, id, parentId)
    ensures NestRefusal(worktrees, id, parentId, limited).None? <==>
              parentId.None? ||
              (&& parentId.value != id
               && parentId.value !in IdsOf(Descendants(worktrees, id))
               && (limited ==>
                     && |AncestryFrom(LinksOf(worktrees), [parentId.value])| + SubtreeHeight(worktrees, id) <= MAX_CHILD_DEPTH
                     && ChildrenOf(worktrees, parentId.value) < MAX_OPEN_CHILDREN))
  {
  }

  /**
   * The records refuse exactly what they must: whatever is not movable, would no longer be a forest, or for an
   * agent would leave something too deep or a parent with too many children.
   */
  lemma RefusalIsExact(worktrees: seq<Node>, id: string, parentId: Option<string>, limited: bool)
    requires Forest(worktrees)
    ensures NestRefusal(worktrees, id, parentId, limited).None? <==>
              && Movable(worktrees, id, parentId)
              && Forest(Moved(worktrees, id, parentId))
              && (limited ==> Limited(Moved(worktrees, id, parentId), id, parentId))
  {
    if !Movable(worktrees, id, parentId) {
      UnmovableIsRefused(worktrees, id, parentId, limited);
    } else {
      RefusalOfMovable(worktrees, id, parentId, limited);
      CycleIsExact(worktrees, id, parentId);
      if parentId.Some? && Forest(Moved(worktrees, id, parentId)) {
        LimitsAreExact(worktrees, id, parentId.value);
      }
    }
  }

  datatype Move = Move(id: string, parentId: Option<string>, limited: bool)

  function AfterMove(worktrees: seq<Node>, move: Move): seq<Node> {
    if NestRefusal(worktrees, move.id, move.parentId, move.limited).None? then Moved(worktrees, move.id, move.parentId) else worktrees
  }

  function AfterMoves(worktrees: seq<Node>, moves: seq<Move>): seq<Node> {
    if moves == [] then worktrees else AfterMove(AfterMoves(worktrees, moves[..|moves| - 1]), moves[|moves| - 1])
  }

  /** Over any run of moves, each made only when the records allow it, a forest stays a forest. */
  lemma {:induction false} MovesKeepForest(worktrees: seq<Node>, moves: seq<Move>)
    requires Forest(worktrees)
    ensures Forest(AfterMoves(worktrees, moves))
  {
    if moves != [] {
      var last := moves[|moves| - 1];
      MovesKeepForest(worktrees, moves[..|moves| - 1]);
      RefusalIsExact(AfterMoves(worktrees, moves[..|moves| - 1]), last.id, last.parentId, last.limited);
    }
  }

  // ---------------------------------------------------------------- limits over a run

  ghost predicate ShallowEnough(worktrees: seq<Node>) {
    forall id :: DepthAtMost(LinksOf(worktrees), id, MAX_CHILD_DEPTH)
  }

  predicate FewEnough(worktrees: seq<Node>) {
    forall id :: id in Ids(worktrees) ==> ChildrenOf(worktrees, id) <= MAX_OPEN_CHILDREN
  }

  /** No worktree deeper than an agent may put one, and none with more open children than an agent may give one. */
  ghost predicate WithinLimits(worktrees: seq<Node>) {
    Forest(worktrees) && ShallowEnough(worktrees) && FewEnough(worktrees)
  }

  /** A worktree whose climb does not meet the one moved stays as deep as it was; the rest go where it goes. */
  lemma MovedDepth(a: Links, b: Links, id: string, x: string, depth: nat)
    requires DifferAt(a, b, id) && DepthAtMost(a, x, depth)
    requires id in b ==> SubtreeWithin(b, id, depth)
    ensures DepthAtMost(b, x, depth)
  {
    if exists k: nat :: k <= depth && Climb(a, x, k) == Some(id) {
      var k: nat :| k <= depth && Climb(a, x, k) == Some(id);
      var first := MeetsInBoth(a, b, id, x, k);
      if id in b {
        assert InSubtree(b, x, id);
      } else {
        assert Climb(b, x, first + 1).None?;
        ClimbEnds(b, x, first + 1, depth + 1);
      }
    } else {
      ClimbChanged(a, b, id, x, depth + 1);
    }
  }

  lemma {:induction false} NoMoreChildren(worktrees: seq<Node>, id: string, parentId: Option<string>, other: string)
    requires parentId != Some(other)
    ensures ChildrenOf(Moved(worktrees, id, parentId), other) <= ChildrenOf(worktrees, other)
  {
    if worktrees != [] {
      var front := worktrees[..|worktrees| - 1];
      NoMoreChildren(front, id, parentId, other);
      assert Moved(worktrees, id, parentId)[..|front|] == Moved(front, id, parentId);
    }
  }

  lemma MovedIds(worktrees: seq<Node>, id: string, parentId: Option<string>)
    ensures Ids(Moved(worktrees, id, parentId)) == Ids(worktrees)
  {
    var next := Moved(worktrees, id, parentId);
    forall x
      ensures x in Ids(next) <==> x in Ids(worktrees)
    {
      if x in Ids(worktrees) {
        var i :| 0 <= i < |worktrees| && worktrees[i].id == x;
        assert next[i].id == x && next[i] in next;
      }
      if x in Ids(next) {
        var i :| 0 <= i < |next| && next[i].id == x;
        assert worktrees[i].id == x && worktrees[i] in worktrees;
      }
    }
  }

  lemma MoveKeepsLimits(worktrees: seq<Node>, id: string, parentId: Option<string>)
    requires WithinLimits(worktrees) && Known(worktrees, id, parentId)
    requires Forest(Moved(worktrees, id, parentId)) && Limited(Moved(worktrees, id, parentId), id, parentId)
    ensures WithinLimits(Moved(worktrees, id, parentId))
  {
    var next := Moved(worktrees, id, parentId);
    MovedLinks(worktrees, id, parentId);
    MovedIds(worktrees, id, parentId);
    forall x
      ensures DepthAtMost(LinksOf(next), x, MAX_CHILD_DEPTH)
    {
      assert DepthAtMost(LinksOf(worktrees), x, MAX_CHILD_DEPTH);
      MovedDepth(LinksOf(worktrees), LinksOf(next), id, x, MAX_CHILD_DEPTH);
    }
    forall x | x in Ids(next)
      ensures ChildrenOf(next, x) <= MAX_OPEN_CHILDREN
    {
      if parentId != Some(x) {
        NoMoreChildren(worktrees, id, parentId, x);
      }
    }
  }

  /** Over any run of an agent's moves, records within the limits stay within them. */
  lemma {:induction false} LimitedMovesKeepLimits(worktrees: seq<Node>, moves: seq<Move>)
    requires WithinLimits(worktrees) && forall k :: 0 <= k < |moves| ==> moves[k].limited
    ensures WithinLimits(AfterMoves(worktrees, moves))
  {
    if moves != [] {
      var before, last := AfterMoves(worktrees, moves[..|moves| - 1]), moves[|moves| - 1];
      LimitedMovesKeepLimits(worktrees, moves[..|moves| - 1]);
      RefusalIsExact(before, last.id, last.parentId, true);
      if NestRefusal(before, last.id, last.parentId, true).None? {
        MoveKeepsLimits(before, last.id, last.parentId);
      }
    }
  }
}
