/**
 * Why a move is refused (src/shared/nesting.ts): over a forest, for the first of the reasons that is true of it, each
 * reason read off the records and their parent links alone.
 */
module NestReasons {
  import opened Nesting
  import opened TaskTree
  import opened Wrappers

  /** A record of this id is there, in this state or project, or under this parent. */
  ghost predicate Recorded(worktrees: seq<Node>, id: string) {
    exists w :: w in worktrees && w.id == id
  }

  ghost predicate Unready(worktrees: seq<Node>, id: string) {
    exists w :: w in worktrees && w.id == id && w.state != Ready
  }

  ghost predicate Apart(worktrees: seq<Node>, id: string, other: string) {
    exists w, v :: w in worktrees && v in worktrees && w.id == id && v.id == other && w.projectId != v.projectId
  }

  ghost predicate StandsUnder(worktrees: seq<Node>, id: string, parentId: Option<string>) {
    exists w :: w in worktrees && w.id == id && w.parentId == parentId
  }

  predicate OfTeammate(id: string) {
    |id| >= 5 && id[0] == 'p' && id[1] == 'e' && id[2] == 'e' && id[3] == 'r' && id[4] == ':'
  }

  function Under(worktrees: seq<Node>, parent: string): set<int> {
    set i | 0 <= i < |worktrees| && worktrees[i].parentId == Some(parent)
  }

  /** A climb from `other` comes by `id`. */
  ghost predicate IsBelow(worktrees: seq<Node>, other: string, id: string) {
    InSubtree(LinksOf(worktrees), other, id)
  }

  /** Under `parent`, something of the subtree of `id` would be more than three levels deep. */
  ghost predicate PutsTooDeep(worktrees: seq<Node>, id: string, parent: string) {
    !SubtreeWithin(LinksOf(Moved(worktrees, id, Some(parent))), id, 3)
  }

  /** What each reason says. */
  ghost predicate IsTrue(reason: Refusal, worktrees: seq<Node>, id: string, parentId: Option<string>, limited: bool) {
    match reason
    case Teammate => OfTeammate(id) || (parentId.Some? && OfTeammate(parentId.value))
    case Same => parentId == Some(id)
    case Missing => !Recorded(worktrees, id) || (parentId.Some? && !Recorded(worktrees, parentId.value))
    case NotReady => Unready(worktrees, id) || (parentId.Some? && Unready(worktrees, parentId.value))
    case OtherProject => parentId.Some? && Apart(worktrees, id, parentId.value)
    case Unchanged => StandsUnder(worktrees, id, parentId)
    case Cycle => parentId.Some? && IsBelow(worktrees, parentId.value, id)
    case Depth => limited && parentId.Some? && PutsTooDeep(worktrees, id, parentId.value)
    case Children => limited && parentId.Some? && |Under(worktrees, parentId.value)| >= 6
  }

  /** The order in which the reasons are looked at. */
  function Rank(reason: Refusal): nat {
    match reason
    case Teammate => 0
    case Same => 1
    case Missing => 2
    case NotReady => 3
    case OtherProject => 4
    case Unchanged => 5
    case Cycle => 6
    case Depth => 7
    case Children => 8
  }

  lemma {:induction false} UnderIsChildren(worktrees: seq<Node>, parent: string)
    ensures |Under(worktrees, parent)| == ChildrenOf(worktrees, parent)
  {
    if worktrees == [] {
      assert Under(worktrees, parent) == {};
    } else {
      var n := |worktrees| - 1;
      UnderIsChildren(worktrees[..n], parent);
      assert Under(worktrees, parent) == Under(worktrees[..n], parent) + if worktrees[n].parentId == Some(parent) then {n} else {};
    }
  }

  /** In records with no id twice, whatever is true of some record of an id is true of the one that is looked up. */
  lemma {:induction false} TheOneRecord(worktrees: seq<Node>, id: string, w: Node)
    requires Distinct(worktrees) && w in worktrees && w.id == id
    ensures Lookup(worktrees, id) == Some(w)
  {
    var i :| 0 <= i < |worktrees| && worktrees[i] == w;
    LookupAt(worktrees, i);
  }

  lemma {:induction false} RecordedIsFound(worktrees: seq<Node>, id: string)
    requires Distinct(worktrees)
    ensures Recorded(worktrees, id) <==> Lookup(worktrees, id).Some?
    ensures Unready(worktrees, id) <==> Lookup(worktrees, id).Some? && Lookup(worktrees, id).value.state != Ready
    ensures forall parentId :: StandsUnder(worktrees, id, parentId)
              <==> Lookup(worktrees, id).Some? && Lookup(worktrees, id).value.parentId == parentId
  {
    forall w | w in worktrees && w.id == id
      ensures Lookup(worktrees, id) == Some(w)
    {
      TheOneRecord(worktrees, id, w);
    }
  }

  lemma {:induction false} ApartIsFound(worktrees: seq<Node>, id: string, other: string)
    requires Distinct(worktrees)
    ensures Apart(worktrees, id, other) <==>
              && Lookup(worktrees, id).Some? && Lookup(worktrees, other).Some?
              && Lookup(worktrees, id).value.projectId != Lookup(worktrees, other).value.projectId
  {
    forall w, v | w in worktrees && v in worktrees && w.id == id && v.id == other
      ensures Lookup(worktrees, id) == Some(w) && Lookup(worktrees, other) == Some(v)
    {
      TheOneRecord(worktrees, id, w);
      TheOneRecord(worktrees, other, v);
    }
  }

  lemma TeammateByLetters(id: string)
    ensures OfTeammate(id) <==> IsTeammate(id)
  {
    if |id| >= 5 {
      assert id[..5] == [id[0], id[1], id[2], id[3], id[4]];
    }
  }

  /** What the records themselves say, before any link is followed. */
  lemma {:induction false} RecordReasons(worktrees: seq<Node>, id: string, parentId: Option<string>, limited: bool)
    requires Distinct(worktrees)
    ensures IsTrue(Teammate, worktrees, id, parentId, limited) <==> IsTeammate(id) || (parentId.Some? && IsTeammate(parentId.value))
    ensures IsTrue(Missing, worktrees, id, parentId, limited) <==> !Known(worktrees, id, parentId)
    ensures Known(worktrees, id, parentId) ==>
              && (IsTrue(NotReady, worktrees, id, parentId, limited) <==>
                    || Lookup(worktrees, id).value.state != Ready
                    || (parentId.Some? && Lookup(worktrees, parentId.value).value.state != Ready))
              && (IsTrue(OtherProject, worktrees, id, parentId, limited) <==>
                    parentId.Some? && Lookup(worktrees, id).value.projectId != Lookup(worktrees, parentId.value).value.projectId)
              && (IsTrue(Unchanged, worktrees, id, parentId, limited) <==> Lookup(worktrees, id).value.parentId == parentId)
  {
    TeammateByLetters(id);
    RecordedIsFound(worktrees, id);
    if parentId.Some? {
      TeammateByLetters(parentId.value);
      RecordedIsFound(worktrees, parentId.value);
      ApartIsFound(worktrees, id, parentId.value);
    }
  }

  lemma CycleReason(worktrees: seq<Node>, id: string, parent: string)
    requires Forest(worktrees) && Known(worktrees, id, Some(parent)) && parent != id
    ensures IsBelow(worktrees, parent, id) <==> parent in IdsOf(Descendants(worktrees, id))
  {
    FoundIsBelow(worktrees, id, parent);
  }

  lemma DepthReason(worktrees: seq<Node>, id: string, parent: string)
    requires Forest(worktrees) && Known(worktrees, id, Some(parent)) && !IsBelow(worktrees, parent, id)
    ensures PutsTooDeep(worktrees, id, parent) <==>
              |AncestryFrom(LinksOf(worktrees), [parent])| + SubtreeHeight(worktrees, id) > MAX_CHILD_DEPTH
  {
    DepthIsExact(worktrees, id, parent, MAX_CHILD_DEPTH);
  }

  /** The first of the reasons that is there, in the order they are looked at. */
  function FirstOf(says: Refusal -> bool): Option<Refusal> {
    if says(Teammate) then Some(Teammate) else if says(Same) then Some(Same) else if says(Missing) then Some(Missing)
    else if says(NotReady) then Some(NotReady) else if says(OtherProject) then Some(OtherProject)
    else if says(Unchanged) then Some(Unchanged) else if says(Cycle) then Some(Cycle) else if says(Depth) then Some(Depth)
    else if says(Children) then Some(Children) else None
  }

  lemma FirstIsFirst(says: Refusal -> bool)
    ensures FirstOf(says).Some? ==> says(FirstOf(says).value)
    ensures forall reason :: (FirstOf(says).None? || Rank(reason) < Rank(FirstOf(says).value)) ==> !says(reason)
  {
    forall reason | FirstOf(says).None? || Rank(reason) < Rank(FirstOf(says).value)
      ensures !says(reason)
    {
      match reason
      case Teammate =>
      case Same =>
      case Missing =>
      case NotReady =>
      case OtherProject =>
      case Unchanged =>
      case Cycle =>
      case Depth =>
      case Children =>
    }
  }

  /** What following the links finds, for a parent the records allow. */
  predicate LinksAllow(says: Refusal -> bool, worktrees: seq<Node>, id: string, parent: string, limited: bool) {
    && (says(Cycle) <==> parent in IdsOf(Descendants(worktrees, id)))
    && (!says(Cycle) ==>
          (says(Depth) <==> limited && |AncestryFrom(LinksOf(worktrees), [parent])| + SubtreeHeight(worktrees, id) > MAX_CHILD_DEPTH))
    && (says(Children) <==> limited && ChildrenOf(worktrees, parent) >= MAX_OPEN_CHILDREN)
  }

  predicate RecordsSay(says: Refusal -> bool, worktrees: seq<Node>, id: string, parentId: Option<string>) {
    && (says(Teammate) <==> IsTeammate(id) || (parentId.Some? && IsTeammate(parentId.value)))
    && (says(Same) <==> parentId == Some(id))
    && (says(Missing) <==> !Known(worktrees, id, parentId))
    && (Known(worktrees, id, parentId) ==>
          var child := Lookup(worktrees, id).value;
          && (says(Unchanged) <==> child.parentId == parentId)
          && if parentId.None? then (says(NotReady) <==> child.state != Ready) && !says(OtherProject)
             else
               var parent := Lookup(worktrees, parentId.value).value;
               && (says(NotReady) <==> child.state != Ready || parent.state != Ready)
               && (says(OtherProject) <==> child.projectId != parent.projectId))
  }

  /** The code looks at the reasons in their order, whatever makes each true. */
  lemma RefusalIsFirst(says: Refusal -> bool, worktrees: seq<Node>, id: string, parentId: Option<string>, limited: bool)
    requires RecordsSay(says, worktrees, id, parentId)
    requires if parentId.None? then !says(Cycle) && !says(Depth) && !says(Children)
             else Known(worktrees, id, parentId) && parentId.value != id ==> LinksAllow(says, worktrees, id, parentId.value, limited)
    ensures NestRefusal(worktrees, id, parentId, limited) == FirstOf(says)
  {
  }

  ghost function Truth(worktrees: seq<Node>, id: string, parentId: Option<string>, limited: bool): Refusal -> bool {
    reason => IsTrue(reason, worktrees, id, parentId, limited)
  }

  lemma TruthOfRecords(worktrees: seq<Node>, id: string, parentId: Option<string>, limited: bool)
    requires Distinct(worktrees)
    ensures RecordsSay(Truth(worktrees, id, parentId, limited), worktrees, id, parentId)
  {
    RecordReasons(worktrees, id, parentId, limited);
  }

  lemma TruthOfLinks(says: Refusal -> bool, worktrees: seq<Node>, id: string, parent: string, limited: bool)
    requires Forest(worktrees) && Known(worktrees, id, Some(parent)) && parent != id
    requires says(Cycle) <==> IsBelow(worktrees, parent, id)
    requires says(Depth) <==> limited && PutsTooDeep(worktrees, id, parent)
    requires says(Children) <==> limited && |Under(worktrees, parent)| >= 6
    ensures LinksAllow(says, worktrees, id, parent, limited)
  {
    CycleReason(worktrees, id, parent);
    UnderIsChildren(worktrees, parent);
    if !IsBelow(worktrees, parent, id) {
      DepthReason(worktrees, id, parent);
    }
  }

  /** A move is refused for the first reason that is true of it, and allowed when none is. */
  lemma FirstTrueReason(worktrees: seq<Node>, id: string, parentId: Option<string>, limited: bool)
    requires Forest(worktrees)
    ensures var refusal := NestRefusal(worktrees, id, parentId, limited);
            && (refusal.Some? ==> IsTrue(refusal.value, worktrees, id, parentId, limited))
            && forall reason :: (refusal.None? || Rank(reason) < Rank(refusal.value)) ==> !IsTrue(reason, worktrees, id, parentId, limited)
  {
    var says := Truth(worktrees, id, parentId, limited);
    TruthOfRecords(worktrees, id, parentId, limited);
    if parentId.Some? && Known(worktrees, id, parentId) && parentId.value != id {
      TruthOfLinks(says, worktrees, id, parentId.value, limited);
    }
    RefusalIsFirst(says, worktrees, id, parentId, limited);
    FirstIsFirst(says);
    forall reason
      ensures says(reason) <==> IsTrue(reason, worktrees, id, parentId, limited)
    {
    }
  }
}
