/**
 * The Durable Object host (relay/src/workers/rendezvousPair.ts) as functions on values. It keeps nothing between events
 * but its sockets and what each has attached: every event rebuilds the sessions and the table from the attachments.
 *
 * Every attachment is readable, an event is atomic, and a socket stays attached until its close is handed over.
 */
module WorkerModel {
  import opened Wrappers
  import opened RelayModel
  import opened RelayInvariant
  import opened RelayRun

  const MAX_PAIRING_SOCKETS := 3
  const MAX_GREETING_SOCKETS := 3

  /** The object's name, and the hash the Worker routed on. */
  datatype Home = Home(name: string, hash: Token -> string)

  predicate Names(home: Home, t: Token) {
    home.hash(t) == home.name
  }

  ghost predicate Injective(hash: Token -> string) {
    forall s, t {:trigger hash(s), hash(t)} :: hash(s) == hash(t) ==> s == t
  }

  /** `heard`: when the runtime last answered each socket's keepalive by itself. */
  datatype HostEvent =
    | Arrive(i: Id, at: int)
    | Say(i: Id, text: TextFrame, at: int, heard: map<Id, int>)
    | Send(i: Id, payload: Payload, at: int, heard: map<Id, int>)
    | Gone(i: Id, heard: map<Id, int>)
    | Alarm(at: int, heard: map<Id, int>)
    | Down(i: Id)

  /** The sockets in the order they were accepted, and the sessions and table the host has of them. */
  datatype Host = Host(world: World, order: seq<Id>)

  // ---------------------------------------------------------------- rebuilding

  datatype Kind = Claiming(t: Token) | InPair | NotInPair | StillGreeting | HoldingSlot {
    predicate Has(p: Peer) {
      match this
      case Claiming(t) => p.token == Some(t) && !p.state.Closed?
      case InPair => p.state.Paired?
      case NotInPair => !p.state.Paired?
      case StillGreeting => p.state.Greeting?
      case HoldingSlot => p.state.Waiting? || p.state.Paired?
    }
  }

  /** Those of the sockets whose session is of a kind, in order. */
  function Where(order: seq<Id>, peers: map<Id, Peer>, kind: Kind): (ids: seq<Id>)
    ensures |ids| <= |order|
    ensures forall i :: i in ids <==> i in order && i in peers && kind.Has(peers[i])
  {
    if order == [] then []
    else (if order[0] in peers && kind.Has(peers[order[0]]) then [order[0]] else []) + Where(order[1..], peers, kind)
  }

  /** Live sessions of one token, those already paired first. */
  function Group(order: seq<Id>, peers: map<Id, Peer>, t: Token): seq<Id> {
    var live := Where(order, peers, Claiming(t));
    Where(live, peers, InPair) + Where(live, peers, NotInPair)
  }

  /** A row put back for at most two sessions; one that never had a session id and is two restores nothing. */
  function RestoredRow(keep: seq<Id>, peers: map<Id, Peer>): Option<Entry>
    requires forall i :: i in keep ==> i in peers
  {
    if keep == [] then None
    else
      var lead := peers[keep[0]];
      var ref := if lead.pairRef.Some? then lead.pairRef.value else 0;
      if |keep| == 1 then Some(Parked(ref, keep[0], lead.openedAt))
      else if lead.sessionId.None? then None
      else Some(Spliced(ref, lead.sessionId.value, keep[0], keep[1], lead.openedAt))
  }

  function RowOf(order: seq<Id>, peers: map<Id, Peer>, t: Token): Option<Entry> {
    var group := Group(order, peers, t);
    RestoredRow(if |group| > 2 then group[..2] else group, peers)
  }

  function Claimed(order: seq<Id>, peers: map<Id, Peer>): set<Token> {
    set i | i in order && i in peers && peers[i].token.Some? && !peers[i].state.Closed? :: peers[i].token.value
  }

  function RestoredEntries(order: seq<Id>, peers: map<Id, Peer>): map<Token, Entry> {
    map t | t in Claimed(order, peers) && RowOf(order, peers, t).Some? :: RowOf(order, peers, t).value
  }

  predicate Halved(entries: map<Token, Entry>, p: Peer, i: Id) {
    p.token.Some? && p.token.value in entries && entries[p.token.value].Spliced? && entries[p.token.value].Holds(i)
  }

  function RestoredPartners(entries: map<Token, Entry>, peers: map<Id, Peer>): map<Id, Id> {
    map i | i in peers && Halved(entries, peers[i], i) :: entries[peers[i].token.value].Other(i)
  }

  /** The world rebuilt from what is attached to the sockets and nothing else. */
  function Rebuilt(order: seq<Id>, peers: map<Id, Peer>, minted: nat): World {
    var entries := RestoredEntries(order, peers);
    World(peers, entries, RestoredPartners(entries, peers), minted)
  }

  /** A host that remembers its table, but counts a parked peer's wait from its arrival. */
  function Reparked(w: World): World {
    w.(entries := map t | t in w.entries :: FromArrival(w, w.entries[t]))
  }

  function FromArrival(w: World, e: Entry): Entry {
    if e.Parked? && e.peer in w.peers then e.(since := w.peers[e.peer].openedAt) else e
  }

  // ---------------------------------------------------------------- worlds that cannot be told apart

  /** The same row, but for its clock and which half is named first. */
  predicate SameRow(e: Entry, f: Entry) {
    if e.Parked? || f.Parked? then e.Parked? && f.Parked? && e.pairRef == f.pairRef && e.peer == f.peer
    else
      && e.pairRef == f.pairRef && e.sessionId == f.sessionId
      && ((e.first == f.first && e.second == f.second) || (e.first == f.second && e.second == f.first))
  }

  ghost predicate Alike(v: World, w: World) {
    && v.peers == w.peers && v.partners == w.partners && v.minted == w.minted && v.entries.Keys == w.entries.Keys
    && forall t {:trigger v.entries[t]} {:trigger w.entries[t]} :: t in v.entries ==> SameRow(v.entries[t], w.entries[t])
  }

  predicate SameClock(e: Entry, f: Entry) {
    e.Parked? && f.Parked? ==> e.since == f.since
  }

  /** Parked peers have waited as long in both. */
  ghost predicate SameClocks(v: World, w: World) {
    forall t {:trigger v.entries[t]} {:trigger w.entries[t]} :: t in v.entries && t in w.entries ==> SameClock(v.entries[t], w.entries[t])
  }

  /** The same waits are over in both at `now`. */
  ghost predicate SameOverdue(cfg: Config, v: World, w: World, now: int) {
    forall t {:trigger v.entries[t]} {:trigger w.entries[t]} :: t in v.entries && t in w.entries ==>
      (ParkingOverdue(cfg, v.entries[t], now) <==> ParkingOverdue(cfg, w.entries[t], now))
  }

  ghost predicate RefAgrees(w: World, t: Token)
    requires t in w.entries
  {
    forall i :: i in w.peers && w.entries[t].Holds(i) ==> w.peers[i].pairRef == Some(w.entries[t].pairRef)
  }

  ghost predicate RefsAgree(w: World) {
    forall t {:trigger RefAgrees(w, t)} :: t in w.entries ==> RefAgrees(w, t)
  }

  ghost predicate Lists(order: seq<Id>, peers: map<Id, Peer>) {
    Unrepeated(order) && forall i :: i in order <==> i in peers
  }

  lemma {:induction false} WhereIsUnrepeated(order: seq<Id>, peers: map<Id, Peer>, kind: Kind)
    requires Unrepeated(order)
    ensures Unrepeated(Where(order, peers, kind))
  {
    if order != [] {
      WhereIsUnrepeated(order[1..], peers, kind);
      assert order[0] !in order[1..];
    }
  }

  lemma {:induction false} NoMoreThan(ids: seq<Id>, bound: set<Id>)
    requires Unrepeated(ids) && forall i :: i in ids ==> i in bound
    ensures |ids| <= |bound|
  {
    if ids != [] {
      assert ids[0] in ids && ids[0] !in ids[1..];
      NoMoreThan(ids[1..], bound - {ids[0]});
    }
  }

  lemma OnlyOne(ids: seq<Id>, a: Id)
    requires Unrepeated(ids) && forall i :: i in ids <==> i == a
    ensures ids == [a]
  {
    NoMoreThan(ids, {a});
    assert a in ids;
  }

  lemma OnlyTwo(ids: seq<Id>, a: Id, b: Id)
    requires Unrepeated(ids) && a != b && forall i :: i in ids <==> i == a || i == b
    ensures ids == [a, b] || ids == [b, a]
  {
    NoMoreThan(ids, {a, b});
    assert a in ids && b in ids;
    var j :| 0 <= j < |ids| && ids[j] == a;
    var k :| 0 <= k < |ids| && ids[k] == b;
  }

  lemma GroupHolds(order: seq<Id>, peers: map<Id, Peer>, t: Token)
    requires Unrepeated(order)
    ensures Unrepeated(Group(order, peers, t))
    ensures forall i :: i in Group(order, peers, t) <==> i in order && i in peers && peers[i].token == Some(t) && !peers[i].state.Closed?
  {
    var live := Where(order, peers, Claiming(t));
    var first, rest := Where(live, peers, InPair), Where(live, peers, NotInPair);
    WhereIsUnrepeated(order, peers, Claiming(t));
    WhereIsUnrepeated(live, peers, InPair);
    WhereIsUnrepeated(live, peers, NotInPair);
    forall j, k | 0 <= j < k < |first| + |rest|
      ensures (first + rest)[j] != (first + rest)[k]
    {
      if j < |first| <= k {
        assert first[j] in first && rest[k - |first|] in rest;
      }
    }
  }

  /** The live sessions of a token are those its row holds; without a row there are none. */
  lemma LiveIsHeld(w: World, t: Token, i: Id)
    requires Inv(w) && i in w.peers
    ensures w.peers[i].token == Some(t) && !w.peers[i].state.Closed? <==> t in w.entries && w.entries[t].Holds(i)
  {
    assert SessionAgrees(w, i);
    if t in w.entries {
      assert EntryAgrees(w, t);
    }
  }

  lemma RowIsRestored(w: World, order: seq<Id>, t: Token)
    requires Inv(w) && RefsAgree(w) && Lists(order, w.peers) && t in w.entries
    ensures RowOf(order, w.peers, t).Some?
    ensures SameRow(RowOf(order, w.peers, t).value, FromArrival(w, w.entries[t]))
    ensures SameClock(RowOf(order, w.peers, t).value, FromArrival(w, w.entries[t]))
  {
    var group := Group(order, w.peers, t);
    GroupHolds(order, w.peers, t);
    assert EntryAgrees(w, t) && RefAgrees(w, t);
    forall i
      ensures i in group <==> i in w.peers && w.entries[t].Holds(i)
    {
      if i in w.peers {
        LiveIsHeld(w, t, i);
      }
    }
    match w.entries[t]
    case Parked(_, a, _) => OnlyOne(group, a);
    case Spliced(_, _, a, b, _) =>
      OnlyTwo(group, a, b);
      assert SessionAgrees(w, a) && SessionAgrees(w, b);
  }

  function SomeHolder(e: Entry): Id {
    match e
    case Parked(_, peer, _) => peer
    case Spliced(_, _, first, _, _) => first
  }

  lemma ClaimedIsTabled(w: World, order: seq<Id>, t: Token)
    requires Inv(w) && Lists(order, w.peers)
    ensures t in Claimed(order, w.peers) <==> t in w.entries
  {
    if t in Claimed(order, w.peers) {
      var i :| i in order && i in w.peers && w.peers[i].token == Some(t) && !w.peers[i].state.Closed?;
      LiveIsHeld(w, t, i);
    }
    if t in w.entries {
      assert EntryAgrees(w, t);
      LiveIsHeld(w, t, SomeHolder(w.entries[t]));
    }
  }

  ghost predicate TokenAlike(entries: map<Token, Entry>, w: World, t: Token) {
    if t !in w.entries then t !in entries
    else t in entries && SameRow(entries[t], FromArrival(w, w.entries[t])) && SameClock(entries[t], FromArrival(w, w.entries[t]))
  }

  ghost predicate TableAlike(entries: map<Token, Entry>, w: World) {
    forall t {:trigger TokenAlike(entries, w, t)} :: TokenAlike(entries, w, t)
  }

  lemma TokenIsRestored(w: World, order: seq<Id>, t: Token)
    requires Inv(w) && RefsAgree(w) && Lists(order, w.peers)
    ensures TokenAlike(RestoredEntries(order, w.peers), w, t)
  {
    ClaimedIsTabled(w, order, t);
    if t in w.entries {
      RowIsRestored(w, order, t);
    }
  }

  lemma TableIsRestored(w: World, order: seq<Id>)
    requires Inv(w) && RefsAgree(w) && Lists(order, w.peers)
    ensures TableAlike(RestoredEntries(order, w.peers), w)
  {
    forall t ensures TokenAlike(RestoredEntries(order, w.peers), w, t) {
      TokenIsRestored(w, order, t);
    }
  }

  lemma PartnersAreRestored(w: World, entries: map<Token, Entry>)
    requires Inv(w) && TableAlike(entries, w)
    ensures RestoredPartners(entries, w.peers) == w.partners
  {
    var partners := RestoredPartners(entries, w.peers);
    forall i | i in w.peers
      ensures i in partners <==> i in w.partners
      ensures i in partners ==> partners[i] == w.partners[i]
    {
      assert SessionAgrees(w, i);
      if w.peers[i].token.Some? {
        var t := w.peers[i].token.value;
        assert TokenAlike(entries, w, t);
        if t in w.entries {
          LiveIsHeld(w, t, i);
          assert EntryAgrees(w, t);
        }
      }
    }
    assert partners.Keys == w.partners.Keys;
  }

  lemma AlikeFromTable(w: World, entries: map<Token, Entry>)
    requires Inv(w) && TableAlike(entries, w)
    ensures Alike(World(w.peers, entries, RestoredPartners(entries, w.peers), w.minted), Reparked(w))
    ensures SameClocks(World(w.peers, entries, RestoredPartners(entries, w.peers), w.minted), Reparked(w))
  {
    PartnersAreRestored(w, entries);
    var kept := Reparked(w).entries;
    forall t
      ensures t in entries <==> t in kept
      ensures t in entries ==> SameRow(entries[t], kept[t]) && SameClock(entries[t], kept[t])
    {
      assert TokenAlike(entries, w, t);
    }
  }

  /** What is rebuilt from the attachments is the table that was forgotten. */
  lemma RebuiltIsAlike(w: World, order: seq<Id>)
    requires Inv(w) && RefsAgree(w) && Lists(order, w.peers)
    ensures Alike(Rebuilt(order, w.peers, w.minted), Reparked(w)) && SameClocks(Rebuilt(order, w.peers, w.minted), Reparked(w))
  {
    TableIsRestored(w, order);
    AlikeFromTable(w, RestoredEntries(order, w.peers));
  }

  lemma AlikeKeepsInv(v: World, w: World)
    requires Alike(v, w) && Inv(w)
    ensures Inv(v)
  {
    forall k | k in v.peers
      ensures SessionAgrees(v, k)
    {
      assert SessionAgrees(w, k);
      if w.peers[k].token.Some? && w.peers[k].token.value in w.entries {
        assert SameRow(v.entries[w.peers[k].token.value], w.entries[w.peers[k].token.value]);
      }
    }
    forall t | t in v.entries
      ensures EntryAgrees(v, t)
    {
      assert SameRow(v.entries[t], w.entries[t]) && EntryAgrees(w, t);
    }
    forall k, j | Mates(v, k, j)
      ensures MatesAgree(v, k, j)
    {
      assert Mates(w, k, j) && MatesAgree(w, k, j);
    }
    forall k, j, l | Mates(v, k, j) && Mates(v, k, l)
      ensures j == l
    {
      assert Mates(w, k, j) && Mates(w, k, l);
    }
  }

  // ---------------------------------------------------------------- no event can tell them apart

  lemma WithAlike(v: World, w: World, i: Id, p: Peer)
    requires Alike(v, w)
    ensures Alike(With(v, i, p), With(w, i, p))
  {
  }

  lemma EndedAtAlike(v: World, w: World, i: Id, code: CloseCode)
    requires Alike(v, w)
    ensures Alike(EndedAt(v, i, code), EndedAt(w, i, code))
  {
  }

  lemma DroppedAlike(v: World, w: World, t: Token)
    requires Alike(v, w) && t in w.entries && w.entries[t].Spliced?
    ensures v.entries[t].Spliced? && Alike(Dropped(v, t), Dropped(w, t))
  {
    assert SameRow(v.entries[t], w.entries[t]);
    assert {v.entries[t].first, v.entries[t].second} == {w.entries[t].first, w.entries[t].second};
  }

  lemma LeaveAlike(v: World, w: World, t: Token, i: Id)
    requires Alike(v, w)
    ensures Alike(AfterLeave(v, t, i), AfterLeave(w, t, i))
  {
    var v1, w1 := v.(partners := v.partners - {i}), w.(partners := w.partners - {i});
    assert Alike(v1, w1);
    if t in w.entries {
      assert SameRow(v.entries[t], w.entries[t]);
      if w.entries[t].Holds(i) && w.entries[t].Spliced? {
        DroppedAlike(v1, w1, t);
        EndedAtAlike(Dropped(v1, t), Dropped(w1, t), w.entries[t].Other(i), PartnerGone);
      }
    }
  }

  lemma ReleaseAlike(v: World, w: World, i: Id)
    requires Alike(v, w) && i in w.peers
    ensures Alike(AfterRelease(v, i), AfterRelease(w, i))
  {
    if w.peers[i].token.Some? {
      LeaveAlike(v, w, w.peers[i].token.value, i);
    }
  }

  lemma CloseAlike(v: World, w: World, i: Id, code: CloseCode)
    requires Alike(v, w) && i in w.peers
    ensures Alike(AfterClose(v, i, code), AfterClose(w, i, code))
  {
    WithAlike(v, w, i, Ended(w.peers[i], code));
    ReleaseAlike(With(v, i, Ended(w.peers[i], code)), With(w, i, Ended(w.peers[i], code)), i);
  }

  lemma EndingsCommute(w: World, a: Id, b: Id, code: CloseCode)
    requires a != b
    ensures EndedAt(EndedAt(w, a, code), b, code) == EndedAt(EndedAt(w, b, code), a, code)
  {
    assert EndedAt(EndedAt(w, a, code), b, code).peers == EndedAt(EndedAt(w, b, code), a, code).peers;
  }

  lemma EndSessionAlike(v: World, w: World, t: Token, code: CloseCode)
    requires Alike(v, w) && t in w.entries && w.entries[t].Spliced? && w.entries[t].first != w.entries[t].second
    ensures v.entries[t].Spliced? && Alike(AfterEndSession(v, t, code), AfterEndSession(w, t, code))
  {
    var a, b := v.entries[t].first, v.entries[t].second;
    assert SameRow(v.entries[t], w.entries[t]);
    DroppedAlike(v, w, t);
    EndedAtAlike(Dropped(v, t), Dropped(w, t), a, code);
    EndedAtAlike(EndedAt(Dropped(v, t), a, code), EndedAt(Dropped(w, t), a, code), b, code);
    EndingsCommute(Dropped(w, t), a, b, code);
  }

  lemma ParkedAlike(v: World, w: World, t: Token, i: Id, now: int)
    requires Alike(v, w)
    ensures Alike(v.(entries := v.entries[t := Parked(v.minted, i, now)], minted := v.minted + 1),
                  w.(entries := w.entries[t := Parked(w.minted, i, now)], minted := w.minted + 1))
  {
  }

  lemma MarkedAlike(v: World, w: World, i: Id, session: nat, initiator: bool, now: int)
    requires Alike(v, w)
    ensures Alike(MarkedAt(v, i, session, initiator, now), MarkedAt(w, i, session, initiator, now))
  {
  }

  lemma JoinAlike(v: World, w: World, t: Token, i: Id, now: int)
    requires Alike(v, w) && (t in w.entries && w.entries[t].Spliced? ==> w.entries[t].first != w.entries[t].second)
    ensures Alike(AfterJoin(v, t, i, now), AfterJoin(w, t, i, now))
  {
    if t !in w.entries {
      ParkedAlike(v, w, t, i, now);
    } else {
      assert SameRow(v.entries[t], w.entries[t]);
      if w.entries[t].Spliced? {
        EndSessionAlike(v, w, t, Superseded);
        var a, b := AfterEndSession(v, t, Superseded), AfterEndSession(w, t, Superseded);
        assert a.minted == v.minted && b.minted == w.minted;
        ParkedAlike(a, b, t, i, now);
      } else {
        var ref, j := w.entries[t].pairRef, w.entries[t].peer;
        var row := Spliced(ref, w.minted, j, i, now);
        var v1 := v.(entries := v.entries[t := row], partners := v.partners[j := i][i := j], minted := v.minted + 1);
        var w1 := w.(entries := w.entries[t := row], partners := w.partners[j := i][i := j], minted := w.minted + 1);
        assert Alike(v1, w1);
        MarkedAlike(v1, w1, j, w.minted, false, now);
        MarkedAlike(MarkedAt(v1, j, w.minted, false, now), MarkedAt(w1, j, w.minted, false, now), i, w.minted, true, now);
      }
    }
  }

  lemma PresentingAlike(v: World, w: World, i: Id, t: Token, now: int)
    requires Alike(v, w) && i in w.peers && (t in w.entries && w.entries[t].Spliced? ==> w.entries[t].first != w.entries[t].second)
    ensures Alike(AfterPresenting(v, i, t, now), AfterPresenting(w, i, t, now))
  {
    JoinAlike(v, w, t, i, now);
    var v1, w1 := AfterJoin(v, t, i, now), AfterJoin(w, t, i, now);
    assert SameRow(v1.entries[t], w1.entries[t]);
  }

  lemma RowIsOfTwo(w: World, t: Token)
    requires Inv(w)
    ensures t in w.entries && w.entries[t].Spliced? ==> w.entries[t].first != w.entries[t].second
  {
    if t in w.entries {
      assert EntryAgrees(w, t);
    }
  }

  lemma HelloAlike(v: World, w: World, i: Id, frame: TextFrame, now: int)
    requires Alike(v, w) && Inv(w) && i in w.peers
    ensures Alike(AfterHello(v, i, frame, now), AfterHello(w, i, frame, now))
  {
    if frame.HelloText? {
      var p := w.peers[i].(token := Some(frame.token));
      RowIsOfTwo(w, frame.token);
      WithAlike(v, w, i, p);
      PresentingAlike(With(v, i, p), With(w, i, p), i, frame.token, now);
    } else {
      CloseAlike(v, w, i, BadHello);
    }
  }

  lemma VerdictAlike(v: World, w: World, i: Id, verdict: (Verdict, Peer))
    requires Alike(v, w) && i in w.peers
    ensures Alike(AfterVerdict(v, i, verdict), AfterVerdict(w, i, verdict))
  {
    WithAlike(v, w, i, verdict.1);
    if verdict.0.Refuse? {
      CloseAlike(With(v, i, verdict.1), With(w, i, verdict.1), i, verdict.0.code);
    }
  }

  lemma TextAlike(cfg: Config, v: World, w: World, i: Id, frame: TextFrame, now: int)
    requires Alike(v, w) && Inv(w) && i in w.peers
    ensures Alike(AfterText(cfg, v, i, frame, now), AfterText(cfg, w, i, frame, now))
  {
    var p := w.peers[i].(lastHeardAt := now);
    if p.state.Greeting? {
      WithAlike(v, w, i, p);
      QuietKeepsInv(w, i, p);
      HelloAlike(With(v, i, p), With(w, i, p), i, frame, now);
    } else if !p.state.Closed? {
      VerdictAlike(v, w, i, TextVerdict(cfg, p, frame, now));
    }
  }

  lemma SpliceAlike(cfg: Config, v: World, w: World, i: Id, payload: Payload, now: int)
    requires Alike(v, w) && i in w.peers
    ensures Alike(AfterSplice(cfg, v, i, payload, now), AfterSplice(cfg, w, i, payload, now))
  {
    if i !in w.partners || w.partners[i] !in w.peers {
      CloseAlike(v, w, i, GoingAway);
    } else {
      var j := w.partners[i];
      CloseAlike(v, w, j, SlowConsumer);
      WithAlike(v, w, i, CountedIn(w.peers[i], now));
      WithAlike(With(v, i, CountedIn(w.peers[i], now)), With(w, i, CountedIn(w.peers[i], now)), j, Delivered(w.peers[j], payload, now));
    }
  }

  lemma BinaryAlike(cfg: Config, v: World, w: World, i: Id, payload: Payload, now: int)
    requires Alike(v, w) && i in w.peers
    ensures Alike(AfterBinary(cfg, v, i, payload, now), AfterBinary(cfg, w, i, payload, now))
  {
    if !w.peers[i].state.Closed? {
      var verdict := BinaryVerdict(cfg, w.peers[i].(lastHeardAt := now), |payload|, now);
      if verdict.0.Refuse? {
        VerdictAlike(v, w, i, verdict);
      } else {
        WithAlike(v, w, i, verdict.1);
        SpliceAlike(cfg, With(v, i, verdict.1), With(w, i, verdict.1), i, payload, now);
      }
    }
  }

  lemma SocketClosedAlike(v: World, w: World, i: Id)
    requires Alike(v, w) && i in w.peers
    ensures Alike(AfterSocketClosed(v, i), AfterSocketClosed(w, i))
  {
    var p := w.peers[i].(state := Closed);
    WithAlike(v, w, i, p);
    ReleaseAlike(With(v, i, p), With(w, i, p), i);
  }

  lemma SilenceAlike(v: World, w: World, i: Id)
    requires Alike(v, w) && Inv(w) && i in w.peers
    ensures Alike(AfterSilence(v, i), AfterSilence(w, i))
  {
    CloseAlike(v, w, i, Idle);
    var p := w.peers[i];
    if p.token.Some? && p.token.value in w.entries {
      var t := p.token.value;
      assert SameRow(v.entries[t], w.entries[t]);
      RowIsOfTwo(w, t);
      if w.entries[t].Spliced? {
        EndSessionAlike(v, w, t, Idle);
      }
    }
  }

  lemma KeepAliveAlike(cfg: Config, v: World, w: World, i: Id, now: int)
    requires Alike(v, w) && i in w.peers
    ensures Alike(AfterKeepAlive(cfg, v, i, now), AfterKeepAlive(cfg, w, i, now))
  {
    var p := w.peers[i];
    WithAlike(v, w, i, CutOff(p));
    ReleaseAlike(With(v, i, CutOff(p)), With(w, i, CutOff(p)), i);
    WithAlike(v, w, i, p.(awaitingPong := true, lastPingAt := now, socket := Put(p.socket, Ping)));
  }

  lemma SweepOneAlike(cfg: Config, v: World, w: World, i: Id, now: int)
    requires Alike(v, w) && Inv(w) && i in w.peers
    ensures Alike(AfterSweepOne(cfg, v, i, now), AfterSweepOne(cfg, w, i, now))
  {
    var p := w.peers[i];
    if GreetingOverdue(cfg, p, now) {
      CloseAlike(v, w, i, BadHello);
    } else if IdleOverdue(cfg, p, now) {
      SilenceAlike(v, w, i);
    } else {
      KeepAliveAlike(cfg, v, w, i, now);
    }
  }

  lemma ExpiryAlike(cfg: Config, v: World, w: World, now: int)
    requires Alike(v, w) && SameOverdue(cfg, v, w, now)
    ensures Alike(AfterExpiry(cfg, v, now), AfterExpiry(cfg, w, now))
  {
    forall t | t in w.entries
      ensures ParkingOverdue(cfg, v.entries[t], now) == ParkingOverdue(cfg, w.entries[t], now)
      ensures w.entries[t].Parked? ==> v.entries[t].Parked? && v.entries[t].peer == w.entries[t].peer
    {
      assert SameRow(v.entries[t], w.entries[t]);
    }
    assert Expired(cfg, v, now) == Expired(cfg, w, now);
  }

  lemma {:induction false} SweptAllAlike(cfg: Config, v: World, w: World, order: seq<Id>, now: int)
    requires Alike(v, w) && Inv(w)
    ensures Alike(SweptAll(cfg, v, order, now), SweptAll(cfg, w, order, now))
  {
    if order != [] {
      var front, last := order[..|order| - 1], order[|order| - 1];
      SweptAllAlike(cfg, v, w, front, now);
      SweptAllKeepsInv(cfg, w, front, now);
      if last in SweptAll(cfg, w, front, now).peers {
        SweepOneAlike(cfg, SweptAll(cfg, v, front, now), SweptAll(cfg, w, front, now), last, now);
      }
    }
  }

  lemma SweepAlike(cfg: Config, v: World, w: World, order: seq<Id>, now: int)
    requires Alike(v, w) && Inv(w) && SameOverdue(cfg, v, w, now)
    ensures Alike(AfterSweep(cfg, v, order, now), AfterSweep(cfg, w, order, now))
  {
    ExpiryAlike(cfg, v, w, now);
    ExpiryKeepsInv(cfg, w, now);
    SweptAllAlike(cfg, AfterExpiry(cfg, v, now), AfterExpiry(cfg, w, now), order, now);
  }
}
