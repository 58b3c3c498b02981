/**
 * Runs of the Durable Object host: forgetting everything between events makes no difference to what any peer is sent,
 * and there is always room for one more.
 */
module WorkerRun {
  import opened Wrappers
  import opened RelayModel
  import opened RelayInvariant
  import opened RelayRun
  import opened WorkerModel

  // ---------------------------------------------------------------- events

  /** Keepalives the runtime answered without waking the object. */
  function HeardAll(w: World, heard: map<Id, int>): World {
    w.(peers := map i | i in w.peers :: if i in heard then Heard(w.peers[i], heard[i]) else w.peers[i])
  }

  function Greeters(h: Host): seq<Id> {
    Where(h.order, h.world.peers, StillGreeting)
  }

  function Slots(h: Host): seq<Id> {
    Where(h.order, h.world.peers, HoldingSlot)
  }

  /** The first of those that have been silent longest. */
  function Oldest(ids: seq<Id>, peers: map<Id, Peer>): (oldest: Id)
    requires ids != [] && forall i :: i in ids ==> i in peers
    ensures oldest in ids && forall i :: i in ids ==> peers[oldest].openedAt <= peers[i].openedAt
  {
    var last := ids[|ids| - 1];
    if |ids| == 1 then last
    else
      var before := Oldest(ids[..|ids| - 1], peers);
      assert forall i :: i in ids ==> i in ids[..|ids| - 1] || i == last;
      if peers[last].openedAt < peers[before].openedAt then last else before
  }

  predicate Accepts(h: Host) {
    |Slots(h)| < MAX_PAIRING_SOCKETS
  }

  /** Room made for an arrival: with the greeting slots full, the one silent longest goes. */
  function MadeRoom(h: Host): World {
    if |Greeters(h)| >= MAX_GREETING_SOCKETS then EndedAt(h.world, Oldest(Greeters(h), h.world.peers), Capacity) else h.world
  }

  function AfterArrival(cfg: Config, h: Host, i: Id, at: int): Host {
    if i in h.world.peers || !Accepts(h) then h
    else Host(With(MadeRoom(h), i, Opened(cfg, at)), h.order + [i])
  }

  /** A hello for some other rendezvous is turned away before core sees it. */
  function AfterSay(cfg: Config, home: Home, w: World, i: Id, text: TextFrame, at: int): World
    requires i in w.peers
  {
    if w.peers[i].state.Greeting? && text.HelloText? && !Names(home, text.token) then AfterClose(w, i, BadHello)
    else AfterText(cfg, w, i, text, at)
  }

  function Detached(w: World, i: Id): World {
    w.(peers := w.peers - {i})
  }

  function AfterGone(w: World, i: Id): World
    requires i in w.peers
  {
    Detached(AfterSocketClosed(LineDownAt(w, i), i), i)
  }

  function Applied(cfg: Config, home: Home, h: Host, e: HostEvent): Host {
    match e
    case Arrive(i, at) => AfterArrival(cfg, h, i, at)
    case Say(i, text, at, heard) =>
      if i in h.world.peers then h.(world := AfterSay(cfg, home, HeardAll(h.world, heard), i, text, at)) else h
    case Send(i, payload, at, heard) =>
      if i in h.world.peers then h.(world := AfterBinary(cfg, HeardAll(h.world, heard), i, payload, at)) else h
    case Gone(i, heard) =>
      if i in h.world.peers then Host(AfterGone(HeardAll(h.world, heard), i), Without(h.order, i)) else h
    case Alarm(at, heard) => h.(world := AfterSweep(cfg, HeardAll(h.world, heard), h.order, at))
    case Down(i) => if i in h.world.peers then h.(world := LineDownAt(h.world, i)) else h
  }

  const EMPTY := Host(World(map[], map[], map[], 0), [])

  /** The host as it is: each event starts from what is attached to the sockets. */
  function RunForgetting(cfg: Config, home: Home, es: seq<HostEvent>): Host {
    if es == [] then EMPTY
    else
      var h := RunForgetting(cfg, home, es[..|es| - 1]);
      Applied(cfg, home, Host(Rebuilt(h.order, h.world.peers, h.world.minted), h.order), es[|es| - 1])
  }

  /** The host it stands in for: one that keeps its table, but counts a parked peer's wait from its arrival. */
  function RunKeeping(cfg: Config, home: Home, es: seq<HostEvent>): Host {
    if es == [] then EMPTY
    else
      var h := RunKeeping(cfg, home, es[..|es| - 1]);
      Applied(cfg, home, Host(Reparked(h.world), h.order), es[|es| - 1])
  }

  // ---------------------------------------------------------------- what most events leave alone

  predicate SteadyPeer(p: Peer, q: Peer) {
    q.pairRef == p.pairRef && q.token == p.token && (q.state.Greeting? ==> p.state.Greeting?)
  }

  /** No session comes, none begins to greet or changes its token, no row is new. */
  ghost predicate Steady(w: World, w': World) {
    && w'.peers.Keys == w.peers.Keys
    && (forall i {:trigger w'.peers[i]} :: i in w.peers ==> SteadyPeer(w.peers[i], w'.peers[i]))
    && (forall t {:trigger w'.entries[t]} :: t in w'.entries ==> t in w.entries && w'.entries[t] == w.entries[t])
  }

  lemma SteadyThenSteady(a: World, b: World, c: World)
    requires Steady(a, b) && Steady(b, c)
    ensures Steady(a, c)
  {
    forall i | i in a.peers
      ensures SteadyPeer(a.peers[i], c.peers[i])
    {
      assert SteadyPeer(a.peers[i], b.peers[i]);
    }
  }

  lemma WithIsSteady(w: World, i: Id, q: Peer)
    requires i in w.peers && SteadyPeer(w.peers[i], q)
    ensures Steady(w, With(w, i, q))
  {
  }

  lemma LeaveIsSteady(w: World, t: Token, i: Id)
    ensures Steady(w, AfterLeave(w, t, i))
  {
  }

  lemma ReleaseIsSteady(w: World, i: Id)
    requires i in w.peers
    ensures Steady(w, AfterRelease(w, i))
  {
    if w.peers[i].token.Some? {
      LeaveIsSteady(w, w.peers[i].token.value, i);
    }
  }

  lemma ReleasedIsSteady(w: World, i: Id, q: Peer)
    requires i in w.peers && SteadyPeer(w.peers[i], q)
    ensures Steady(w, AfterRelease(With(w, i, q), i))
  {
    WithIsSteady(w, i, q);
    ReleaseIsSteady(With(w, i, q), i);
    SteadyThenSteady(w, With(w, i, q), AfterRelease(With(w, i, q), i));
  }

  lemma CloseIsSteady(w: World, i: Id, code: CloseCode)
    requires i in w.peers
    ensures Steady(w, AfterClose(w, i, code))
  {
    ReleasedIsSteady(w, i, Ended(w.peers[i], code));
  }

  lemma EndedAtIsSteady(w: World, i: Id, code: CloseCode)
    ensures Steady(w, EndedAt(w, i, code))
  {
    if i in w.peers {
      WithIsSteady(w, i, Ended(w.peers[i], code));
    }
  }

  lemma EndSessionIsSteady(w: World, t: Token, code: CloseCode)
    requires t in w.entries && w.entries[t].Spliced?
    ensures Steady(w, AfterEndSession(w, t, code))
  {
    var d, e := Dropped(w, t), w.entries[t];
    assert Steady(w, d);
    EndedAtIsSteady(d, e.first, code);
    EndedAtIsSteady(EndedAt(d, e.first, code), e.second, code);
    SteadyThenSteady(w, d, EndedAt(d, e.first, code));
    SteadyThenSteady(w, EndedAt(d, e.first, code), AfterEndSession(w, t, code));
  }

  lemma VerdictIsSteady(w: World, i: Id, verdict: (Verdict, Peer))
    requires i in w.peers && SteadyPeer(w.peers[i], verdict.1)
    ensures Steady(w, AfterVerdict(w, i, verdict))
  {
    WithIsSteady(w, i, verdict.1);
    if verdict.0.Refuse? {
      CloseIsSteady(With(w, i, verdict.1), i, verdict.0.code);
      SteadyThenSteady(w, With(w, i, verdict.1), AfterVerdict(w, i, verdict));
    }
  }

  lemma CarriedIsSteady(w: World, i: Id, j: Id, payload: Payload, now: int)
    requires i in w.peers && j in w.peers
    ensures Steady(w, Carried(w, i, j, payload, now))
  {
    var w1 := With(w, i, CountedIn(w.peers[i], now));
    WithIsSteady(w, i, CountedIn(w.peers[i], now));
    assert SteadyPeer(w.peers[j], Delivered(w.peers[j], payload, now));
    if i == j {
      WithIsSteady(w, j, Delivered(w.peers[j], payload, now));
      TwoPuts(w, j, CountedIn(w.peers[i], now), Delivered(w.peers[j], payload, now));
    } else {
      WithIsSteady(w1, j, Delivered(w.peers[j], payload, now));
      SteadyThenSteady(w, w1, Carried(w, i, j, payload, now));
    }
  }

  lemma SpliceIsSteady(cfg: Config, w: World, i: Id, payload: Payload, now: int)
    requires i in w.peers
    ensures Steady(w, AfterSplice(cfg, w, i, payload, now))
  {
    if i !in w.partners || w.partners[i] !in w.peers {
      CloseIsSteady(w, i, GoingAway);
    } else if w.peers[w.partners[i]].socket.backlog > cfg.maxBufferedBytes {
      CloseIsSteady(w, w.partners[i], SlowConsumer);
    } else {
      CarriedIsSteady(w, i, w.partners[i], payload, now);
    }
  }

  lemma BinaryIsSteady(cfg: Config, w: World, i: Id, payload: Payload, now: int)
    requires i in w.peers
    ensures Steady(w, AfterBinary(cfg, w, i, payload, now))
  {
    if !w.peers[i].state.Closed? {
      var verdict := BinaryVerdict(cfg, w.peers[i].(lastHeardAt := now), |payload|, now);
      VerdictIsSteady(w, i, verdict);
      WithIsSteady(w, i, verdict.1);
      SpliceIsSteady(cfg, With(w, i, verdict.1), i, payload, now);
      SteadyThenSteady(w, With(w, i, verdict.1), AfterSplice(cfg, With(w, i, verdict.1), i, payload, now));
    }
  }

  lemma SocketClosedIsSteady(w: World, i: Id)
    requires i in w.peers
    ensures Steady(w, AfterSocketClosed(w, i))
  {
    ReleasedIsSteady(w, i, w.peers[i].(state := Closed));
  }

  lemma SilenceIsSteady(w: World, i: Id)
    requires i in w.peers
    ensures Steady(w, AfterSilence(w, i))
  {
    var p := w.peers[i];
    if p.token.Some? && p.token.value in w.entries && w.entries[p.token.value].Spliced? && w.entries[p.token.value].Holds(i) {
      EndSessionIsSteady(w, p.token.value, Idle);
    } else {
      CloseIsSteady(w, i, Idle);
    }
  }

  lemma KeepAliveIsSteady(cfg: Config, w: World, i: Id, now: int)
    requires i in w.peers
    ensures Steady(w, AfterKeepAlive(cfg, w, i, now))
  {
    var p := w.peers[i];
    if p.awaitingPong {
      ReleasedIsSteady(w, i, CutOff(p));
    } else {
      WithIsSteady(w, i, p.(awaitingPong := true, lastPingAt := now, socket := Put(p.socket, Ping)));
    }
  }

  lemma SweepOneIsSteady(cfg: Config, w: World, i: Id, now: int)
    requires i in w.peers
    ensures Steady(w, AfterSweepOne(cfg, w, i, now))
  {
    if GreetingOverdue(cfg, w.peers[i], now) {
      CloseIsSteady(w, i, BadHello);
    } else if IdleOverdue(cfg, w.peers[i], now) {
      SilenceIsSteady(w, i);
    } else {
      KeepAliveIsSteady(cfg, w, i, now);
    }
  }

  lemma {:induction false} SweptAllIsSteady(cfg: Config, w: World, order: seq<Id>, now: int)
    ensures Steady(w, SweptAll(cfg, w, order, now))
  {
    if order != [] {
      var before := SweptAll(cfg, w, order[..|order| - 1], now);
      SweptAllIsSteady(cfg, w, order[..|order| - 1], now);
      if order[|order| - 1] in before.peers {
        SweepOneIsSteady(cfg, before, order[|order| - 1], now);
        SteadyThenSteady(w, before, SweptAll(cfg, w, order, now));
      }
    }
  }

  lemma SweepIsSteady(cfg: Config, w: World, order: seq<Id>, now: int)
    ensures Steady(w, AfterSweep(cfg, w, order, now))
  {
    assert Steady(w, AfterExpiry(cfg, w, now));
    SweptAllIsSteady(cfg, AfterExpiry(cfg, w, now), order, now);
    SteadyThenSteady(w, AfterExpiry(cfg, w, now), AfterSweep(cfg, w, order, now));
  }

  lemma HeardIsSteady(w: World, heard: map<Id, int>)
    ensures Steady(w, HeardAll(w, heard))
  {
  }

  // ---------------------------------------------------------------- the invariant

  /** Only tokens that name this object are held, by anyone. */
  ghost predicate Homed(home: Home, w: World) {
    forall i :: i in w.peers && w.peers[i].token.Some? ==> Names(home, w.peers[i].token.value)
  }

  ghost predicate HostInv(home: Home, h: Host) {
    && Inv(h.world) && RefsAgree(h.world) && Lists(h.order, h.world.peers) && Homed(home, h.world)
    && |Greeters(h)| <= MAX_GREETING_SOCKETS
  }

  lemma {:induction false} FewerGreet(order: seq<Id>, peers: map<Id, Peer>, peers': map<Id, Peer>)
    requires forall i :: i in peers' && peers'[i].state.Greeting? ==> i in peers && peers[i].state.Greeting?
    ensures |Where(order, peers', StillGreeting)| <= |Where(order, peers, StillGreeting)|
  {
    if order != [] {
      FewerGreet(order[1..], peers, peers');
    }
  }

  lemma SteadyKeepsHostInv(home: Home, h: Host, w: World)
    requires HostInv(home, h) && Steady(h.world, w) && Inv(w)
    ensures HostInv(home, h.(world := w))
  {
    forall i | i in w.peers
      ensures SteadyPeer(h.world.peers[i], w.peers[i])
    {
      assert w.peers[i] == w.peers[i];
    }
    forall t | t in w.entries
      ensures RefAgrees(w, t)
    {
      assert w.entries[t] == h.world.entries[t];
      assert RefAgrees(h.world, t);
    }
    FewerGreet(h.order, h.world.peers, w.peers);
  }

  lemma HeardKeepsInv(w: World, heard: map<Id, int>)
    requires Inv(w)
    ensures Inv(HeardAll(w, heard))
  {
    var w' := HeardAll(w, heard);
    forall k | k in w'.peers
      ensures SessionAgrees(w', k)
    {
      assert SessionAgrees(w, k);
    }
    forall t | t in w'.entries
      ensures EntryAgrees(w', t)
    {
      assert EntryAgrees(w, t);
    }
    forall k, j | Mates(w', k, j)
      ensures MatesAgree(w', k, j)
    {
      assert Mates(w, k, j);
    }
    forall k, j, l | Mates(w', k, j) && Mates(w', k, l)
      ensures j == l
    {
      assert Mates(w, k, j) && Mates(w, k, l);
    }
  }

  lemma ReparkedKeepsHostInv(home: Home, h: Host)
    requires HostInv(home, h)
    ensures HostInv(home, h.(world := Reparked(h.world)))
  {
    var w, w' := h.world, Reparked(h.world);
    forall k | k in w'.peers
      ensures SessionAgrees(w', k)
    {
      assert SessionAgrees(w, k);
    }
    forall t | t in w'.entries
      ensures EntryAgrees(w', t) && RefAgrees(w', t)
    {
      assert EntryAgrees(w, t) && RefAgrees(w, t);
    }
    forall k, j | Mates(w', k, j)
      ensures MatesAgree(w', k, j)
    {
      assert Mates(w, k, j) && MatesAgree(w, k, j);
    }
    forall k, j, l | Mates(w', k, j) && Mates(w', k, l)
      ensures j == l
    {
      assert Mates(w, k, j) && Mates(w, k, l);
    }
  }

  // ---------------------------------------------------------------- a hello for this object

  lemma ParkedInKeepsHostInv(home: Home, h: Host, i: Id, p: Peer, t: Token, now: int)
    requires HostInv(home, h) && i in h.world.peers && t !in h.world.entries && Names(home, t)
    requires p.state.Waiting? && p.token == Some(t) && p.pairRef == Some(h.world.minted) && Inv(ParkedIn(h.world, i, p, t, now))
    ensures HostInv(home, h.(world := ParkedIn(h.world, i, p, t, now)))
  {
    var w, w' := h.world, ParkedIn(h.world, i, p, t, now);
    assert EntryAgrees(w', t);
    forall s | s in w'.entries
      ensures RefAgrees(w', s)
    {
      if s != t {
        assert RefAgrees(w, s) && EntryAgrees(w', s);
      }
    }
    FewerGreet(h.order, w.peers, w'.peers);
  }

  /** Rows other than the new one hold neither of the two sessions it is made of. */
  lemma SplicedInKeepsRefs(w: World, i: Id, p: Peer, j: Id, q: Peer, t: Token, now: int)
    requires RefsAgree(w) && t in w.entries && w.entries[t].Parked? && j == w.entries[t].peer && j in w.peers && j != i
    requires p.token == Some(t) && p.pairRef == Some(w.entries[t].pairRef)
    requires q.token == Some(t) && q.pairRef == w.peers[j].pairRef
    requires Inv(SplicedIn(w, i, p, j, q, t, w.entries[t].pairRef, now))
    ensures RefsAgree(SplicedIn(w, i, p, j, q, t, w.entries[t].pairRef, now))
  {
    var w' := SplicedIn(w, i, p, j, q, t, w.entries[t].pairRef, now);
    assert RefAgrees(w, t);
    forall s | s in w'.entries
      ensures RefAgrees(w', s)
    {
      assert EntryAgrees(w', s);
      if s != t {
        assert RefAgrees(w, s);
      }
    }
  }

  lemma SplicedInKeepsHostInv(home: Home, h: Host, i: Id, p: Peer, j: Id, q: Peer, t: Token, now: int)
    requires HostInv(home, h) && i in h.world.peers && t in h.world.entries && h.world.entries[t].Parked? && Names(home, t)
    requires j == h.world.entries[t].peer && j in h.world.peers && j != i
    requires p.state.Paired? && p.token == Some(t) && p.pairRef == Some(h.world.entries[t].pairRef)
    requires q.state.Paired? && q.token == Some(t) && q.pairRef == h.world.peers[j].pairRef
    requires Inv(SplicedIn(h.world, i, p, j, q, t, h.world.entries[t].pairRef, now))
    ensures HostInv(home, h.(world := SplicedIn(h.world, i, p, j, q, t, h.world.entries[t].pairRef, now)))
  {
    SplicedInKeepsRefs(h.world, i, p, j, q, t, now);
    FewerGreet(h.order, h.world.peers, h.world.peers[j := q][i := p]);
  }

  lemma HelloKeepsHostInv(home: Home, h: Host, i: Id, text: TextFrame, now: int)
    requires HostInv(home, h) && i in h.world.peers && h.world.peers[i].state.Greeting?
    requires text.HelloText? && Names(home, text.token)
    ensures HostInv(home, h.(world := AfterHello(h.world, i, text, now)))
  {
    var w, t := h.world, text.token;
    if t !in w.entries {
      HelloParks(w, i, text, now);
      ParkedInKeepsHostInv(home, h, i, Parking(w.peers[i], t, w.minted), t, now);
    } else if w.entries[t].Parked? {
      var j := w.entries[t].peer;
      HelloPairs(w, i, text, now);
      assert EntryAgrees(w, t);
      SplicedInKeepsHostInv(home, h, i, Pairing(w.peers[i], t, w.entries[t].pairRef, w.minted, now), j,
                            MarkedPaired(w.peers[j], w.minted, false, now), t, now);
    } else {
      SupersedingKeepsHostInv(home, h, i, text, now);
    }
  }

  lemma SupersedingKeepsHostInv(home: Home, h: Host, i: Id, text: TextFrame, now: int)
    requires HostInv(home, h) && i in h.world.peers && h.world.peers[i].state.Greeting?
    requires text.HelloText? && Names(home, text.token) && text.token in h.world.entries && h.world.entries[text.token].Spliced?
    ensures HostInv(home, h.(world := AfterHello(h.world, i, text, now)))
  {
    var w, t := h.world, text.token;
    var w1 := AfterEndSession(w, t, Superseded);
    HelloSupersedes(w, i, text, now);
    EndSessionEndsTogether(w, t, Superseded);
    EndingTogetherKeepsInv(w, w1, {w.entries[t].first, w.entries[t].second}, {t});
    EndSessionIsSteady(w, t, Superseded);
    SteadyKeepsHostInv(home, h, w1);
    ParkedInKeepsHostInv(home, h.(world := w1), i, Parking(w.peers[i], t, w.minted), t, now);
  }

  lemma SayKeepsHostInv(cfg: Config, home: Home, h: Host, i: Id, text: TextFrame, at: int)
    requires HostInv(home, h) && i in h.world.peers
    ensures HostInv(home, h.(world := AfterSay(cfg, home, h.world, i, text, at)))
  {
    var w := h.world;
    var p := w.peers[i].(lastHeardAt := at);
    if w.peers[i].state.Greeting? && text.HelloText? && Names(home, text.token) {
      QuietKeepsInv(w, i, p);
      WithIsSteady(w, i, p);
      SteadyKeepsHostInv(home, h, With(w, i, p));
      HelloKeepsHostInv(home, h.(world := With(w, i, p)), i, text, at);
    } else if w.peers[i].state.Greeting? && text.HelloText? {
      CloseIsSteady(w, i, BadHello);
      CloseKeepsInv(w, i, BadHello);
      SteadyKeepsHostInv(home, h, AfterClose(w, i, BadHello));
    } else if !w.peers[i].state.Closed? {
      TextKeepsInv(cfg, w, i, text, at);
      OtherTextIsSteady(cfg, w, i, text, at);
      SteadyKeepsHostInv(home, h, AfterText(cfg, w, i, text, at));
    }
  }

  lemma OtherTextIsSteady(cfg: Config, w: World, i: Id, text: TextFrame, at: int)
    requires i in w.peers && !(w.peers[i].state.Greeting? && text.HelloText?)
    ensures Steady(w, AfterText(cfg, w, i, text, at))
  {
    var p := w.peers[i].(lastHeardAt := at);
    if p.state.Greeting? {
      WithIsSteady(w, i, p);
      CloseIsSteady(With(w, i, p), i, BadHello);
      SteadyThenSteady(w, With(w, i, p), AfterText(cfg, w, i, text, at));
    } else {
      VerdictIsSteady(w, i, TextVerdict(cfg, p, text, at));
    }
  }

  // ---------------------------------------------------------------- coming and going

  lemma {:induction false} OneMoreGreets(order: seq<Id>, peers: map<Id, Peer>, i: Id)
    ensures |Where(order + [i], peers, StillGreeting)| <= |Where(order, peers, StillGreeting)| + 1
  {
    if order == [] {
      assert (order + [i])[1..] == [];
    } else {
      OneMoreGreets(order[1..], peers, i);
      assert (order + [i])[1..] == order[1..] + [i];
    }
  }

  lemma {:induction false} OneFewerGreets(order: seq<Id>, peers: map<Id, Peer>, i: Id, p: Peer)
    requires Unrepeated(order) && i in Where(order, peers, StillGreeting) && !p.state.Greeting?
    ensures |Where(order, peers[i := p], StillGreeting)| == |Where(order, peers, StillGreeting)| - 1
  {
    if order[0] == i {
      SameElsewhere(order[1..], peers, i, p);
    } else {
      OneFewerGreets(order[1..], peers, i, p);
    }
  }

  lemma {:induction false} SameElsewhere(order: seq<Id>, peers: map<Id, Peer>, i: Id, p: Peer)
    requires i !in order
    ensures Where(order, peers[i := p], StillGreeting) == Where(order, peers, StillGreeting)
  {
    if order != [] {
      SameElsewhere(order[1..], peers, i, p);
    }
  }

  lemma RoomIsMade(home: Home, h: Host)
    requires HostInv(home, h)
    ensures HostInv(home, h.(world := MadeRoom(h))) && |Greeters(h.(world := MadeRoom(h)))| < MAX_GREETING_SOCKETS
  {
    var w := h.world;
    if |Greeters(h)| >= MAX_GREETING_SOCKETS {
      var i := Oldest(Greeters(h), w.peers);
      assert SessionAgrees(w, i);
      assert AfterClose(w, i, Capacity) == MadeRoom(h);
      CloseKeepsInv(w, i, Capacity);
      CloseIsSteady(w, i, Capacity);
      SteadyKeepsHostInv(home, h, MadeRoom(h));
      OneFewerGreets(h.order, w.peers, i, Ended(w.peers[i], Capacity));
    }
  }

  lemma NewcomerKeepsRefs(w: World, i: Id, p: Peer)
    requires Inv(w) && RefsAgree(w) && i !in w.peers
    ensures RefsAgree(With(w, i, p))
  {
    forall t | t in w.entries
      ensures RefAgrees(With(w, i, p), t)
    {
      assert RefAgrees(w, t) && EntryAgrees(w, t);
    }
  }

  lemma NewcomerIsListed(order: seq<Id>, peers: map<Id, Peer>, i: Id, p: Peer)
    requires Lists(order, peers) && i !in peers
    ensures Lists(order + [i], peers[i := p])
    ensures |Where(order + [i], peers[i := p], StillGreeting)| <= |Where(order, peers, StillGreeting)| + 1
  {
    SameElsewhere(order, peers, i, p);
    OneMoreGreets(order, peers[i := p], i);
  }

  lemma NewcomerKeepsHostInv(cfg: Config, home: Home, h: Host, i: Id, at: int)
    requires HostInv(home, h) && i !in h.world.peers && |Greeters(h)| < MAX_GREETING_SOCKETS
    ensures HostInv(home, Host(With(h.world, i, Opened(cfg, at)), h.order + [i]))
  {
    ConnectKeepsInv(cfg, h.world, i, at);
    NewcomerKeepsRefs(h.world, i, Opened(cfg, at));
    NewcomerIsListed(h.order, h.world.peers, i, Opened(cfg, at));
  }

  lemma ArrivalKeepsHostInv(cfg: Config, home: Home, h: Host, i: Id, at: int)
    requires HostInv(home, h)
    ensures HostInv(home, AfterArrival(cfg, h, i, at))
  {
    if i !in h.world.peers && Accepts(h) {
      RoomIsMade(home, h);
      NewcomerKeepsHostInv(cfg, home, h.(world := MadeRoom(h)), i, at);
    }
  }

  lemma DetachKeepsInv(w: World, i: Id)
    requires Inv(w) && i in w.peers && w.peers[i].state.Closed?
    ensures Inv(Detached(w, i))
  {
    var w' := Detached(w, i);
    assert SessionAgrees(w, i);
    forall k | k in w'.peers
      ensures SessionAgrees(w', k)
    {
      assert SessionAgrees(w, k);
    }
    forall t | t in w'.entries
      ensures EntryAgrees(w', t)
    {
      assert EntryAgrees(w, t);
    }
    forall k, j | Mates(w', k, j)
      ensures MatesAgree(w', k, j)
    {
      assert Mates(w, k, j) && MatesAgree(w, k, j);
    }
    forall k, j, l | Mates(w', k, j) && Mates(w', k, l)
      ensures j == l
    {
      assert Mates(w, k, j) && Mates(w, k, l);
    }
  }

  lemma {:induction false} WithoutIsListed(order: seq<Id>, i: Id)
    requires Unrepeated(order)
    ensures Unrepeated(Without(order, i)) && forall k :: k in Without(order, i) <==> k in order && k != i
  {
    if order != [] {
      WithoutIsListed(order[1..], i);
      assert order[0] !in order[1..];
    }
  }

  lemma {:induction false} FewerListed(order: seq<Id>, peers: map<Id, Peer>, i: Id)
    ensures |Where(Without(order, i), peers - {i}, StillGreeting)| <= |Where(order, peers, StillGreeting)|
  {
    if order != [] {
      FewerListed(order[1..], peers, i);
    }
  }

  lemma DetachKeepsHostInv(home: Home, h: Host, i: Id)
    requires HostInv(home, h) && i in h.world.peers && h.world.peers[i].state.Closed?
    ensures HostInv(home, Host(Detached(h.world, i), Without(h.order, i)))
  {
    var w' := Detached(h.world, i);
    DetachKeepsInv(h.world, i);
    WithoutIsListed(h.order, i);
    forall t | t in w'.entries
      ensures RefAgrees(w', t)
    {
      assert RefAgrees(h.world, t);
    }
    FewerListed(h.order, h.world.peers, i);
  }

  lemma ReleaseLeavesClosed(w: World, i: Id)
    requires i in w.peers && w.peers[i].state.Closed?
    ensures i in AfterRelease(w, i).peers && AfterRelease(w, i).peers[i].state.Closed?
  {
  }

  lemma GoneKeepsHostInv(home: Home, h: Host, i: Id)
    requires HostInv(home, h) && i in h.world.peers
    ensures HostInv(home, Host(AfterGone(h.world, i), Without(h.order, i)))
  {
    var down := LineDownAt(h.world, i);
    DownKeepsHostInv(home, h, i);
    SocketClosedKeepsInv(down, i);
    SocketClosedIsSteady(down, i);
    SteadyKeepsHostInv(home, h.(world := down), AfterSocketClosed(down, i));
    ReleaseLeavesClosed(With(down, i, down.peers[i].(state := Closed)), i);
    DetachKeepsHostInv(home, h.(world := AfterSocketClosed(down, i)), i);
  }

  lemma DownKeepsHostInv(home: Home, h: Host, i: Id)
    requires HostInv(home, h) && i in h.world.peers
    ensures HostInv(home, h.(world := LineDownAt(h.world, i)))
  {
    var q := h.world.peers[i].(socket := h.world.peers[i].socket.(open := false));
    QuietKeepsInv(h.world, i, q);
    WithIsSteady(h.world, i, q);
    SteadyKeepsHostInv(home, h, LineDownAt(h.world, i));
  }

  lemma HeardKeepsHostInv(home: Home, h: Host, heard: map<Id, int>)
    requires HostInv(home, h)
    ensures HostInv(home, h.(world := HeardAll(h.world, heard)))
  {
    HeardKeepsInv(h.world, heard);
    HeardIsSteady(h.world, heard);
    SteadyKeepsHostInv(home, h, HeardAll(h.world, heard));
  }

  lemma AppliedKeepsHostInv(cfg: Config, home: Home, h: Host, e: HostEvent)
    requires HostInv(home, h)
    ensures HostInv(home, Applied(cfg, home, h, e))
  {
    match e
    case Arrive(i, at) => ArrivalKeepsHostInv(cfg, home, h, i, at);
    case Say(i, text, at, heard) =>
      HeardKeepsHostInv(home, h, heard);
      if i in h.world.peers {
        SayKeepsHostInv(cfg, home, h.(world := HeardAll(h.world, heard)), i, text, at);
      }
    case Send(i, payload, at, heard) =>
      var g := h.(world := HeardAll(h.world, heard));
      HeardKeepsHostInv(home, h, heard);
      if i in h.world.peers {
        BinaryKeepsInv(cfg, g.world, i, payload, at);
        BinaryIsSteady(cfg, g.world, i, payload, at);
        SteadyKeepsHostInv(home, g, AfterBinary(cfg, g.world, i, payload, at));
      }
    case Gone(i, heard) =>
      HeardKeepsHostInv(home, h, heard);
      if i in h.world.peers {
        GoneKeepsHostInv(home, h.(world := HeardAll(h.world, heard)), i);
      }
    case Alarm(at, heard) =>
      var g := h.(world := HeardAll(h.world, heard));
      HeardKeepsHostInv(home, h, heard);
      ExpiryKeepsInv(cfg, g.world, at);
      SweptAllKeepsInv(cfg, AfterExpiry(cfg, g.world, at), h.order, at);
      SweepIsSteady(cfg, g.world, h.order, at);
      SteadyKeepsHostInv(home, g, AfterSweep(cfg, g.world, h.order, at));
    case Down(i) =>
      if i in h.world.peers {
        DownKeepsHostInv(home, h, i);
      }
  }

  // ---------------------------------------------------------------- what the host promises

  lemma {:induction false} KeepingKeepsHostInv(cfg: Config, home: Home, es: seq<HostEvent>)
    ensures HostInv(home, RunKeeping(cfg, home, es))
  {
    if es != [] {
      var h := RunKeeping(cfg, home, es[..|es| - 1]);
      KeepingKeepsHostInv(cfg, home, es[..|es| - 1]);
      ReparkedKeepsHostInv(home, h);
      AppliedKeepsHostInv(cfg, home, h.(world := Reparked(h.world)), es[|es| - 1]);
    }
  }

  lemma HeardAlike(v: World, w: World, heard: map<Id, int>)
    requires Alike(v, w)
    ensures Alike(HeardAll(v, heard), HeardAll(w, heard))
  {
  }

  lemma SayAlike(cfg: Config, home: Home, v: World, w: World, i: Id, text: TextFrame, at: int)
    requires Alike(v, w) && Inv(w) && i in w.peers
    ensures Alike(AfterSay(cfg, home, v, i, text, at), AfterSay(cfg, home, w, i, text, at))
  {
    CloseAlike(v, w, i, BadHello);
    TextAlike(cfg, v, w, i, text, at);
  }

  /** Worlds that differ only in what an event cannot see go on to differ only in that. */
  lemma AppliedAlike(cfg: Config, home: Home, v: World, w: World, order: seq<Id>, e: HostEvent)
    requires Alike(v, w) && Inv(w) && (e.Alarm? ==> SameOverdue(cfg, v, w, e.at))
    ensures Applied(cfg, home, Host(v, order), e).order == Applied(cfg, home, Host(w, order), e).order
    ensures Alike(Applied(cfg, home, Host(v, order), e).world, Applied(cfg, home, Host(w, order), e).world)
  {
    match e
    case Arrive(i, at) =>
      assert MadeRoom(Host(v, order)).peers == MadeRoom(Host(w, order)).peers;
    case Say(i, text, at, heard) =>
      HeardAlike(v, w, heard);
      HeardKeepsInv(w, heard);
      if i in w.peers {
        SayAlike(cfg, home, HeardAll(v, heard), HeardAll(w, heard), i, text, at);
      }
    case Send(i, payload, at, heard) =>
      HeardAlike(v, w, heard);
      if i in w.peers {
        BinaryAlike(cfg, HeardAll(v, heard), HeardAll(w, heard), i, payload, at);
      }
    case Gone(i, heard) =>
      HeardAlike(v, w, heard);
      if i in w.peers {
        SocketClosedAlike(LineDownAt(HeardAll(v, heard), i), LineDownAt(HeardAll(w, heard), i), i);
      }
    case Alarm(at, heard) =>
      HeardAlike(v, w, heard);
      HeardKeepsInv(w, heard);
      SweepAlike(cfg, HeardAll(v, heard), HeardAll(w, heard), order, at);
    case Down(i) =>
  }

  /**
   * Eviction is unobservable. After any run, a host that forgets its table and sessions before every event has the
   * same sockets as one that never forgets, each with the same session and the same things put on it, in order.
   */
  lemma {:induction false} ForgettingIsUnobservable(cfg: Config, home: Home, es: seq<HostEvent>)
    ensures RunForgetting(cfg, home, es).order == RunKeeping(cfg, home, es).order
    ensures RunForgetting(cfg, home, es).world.peers == RunKeeping(cfg, home, es).world.peers
    ensures RunForgetting(cfg, home, es).world.minted == RunKeeping(cfg, home, es).world.minted
  {
    if es != [] {
      var before := es[..|es| - 1];
      var k := RunKeeping(cfg, home, before);
      ForgettingIsUnobservable(cfg, home, before);
      KeepingKeepsHostInv(cfg, home, before);
      ReparkedKeepsHostInv(home, k);
      RebuiltIsAlike(k.world, k.order);
      AppliedAlike(cfg, home, Rebuilt(k.order, k.world.peers, k.world.minted), Reparked(k.world), k.order, es[|es| - 1]);
    }
  }

  lemma SlotsAreOfOneRow(home: Home, h: Host, i: Id, j: Id)
    requires HostInv(home, h) && Injective(home.hash) && i in Slots(h) && j in Slots(h)
    ensures h.world.peers[i].token.Some? && h.world.peers[i].token == h.world.peers[j].token
    ensures h.world.peers[i].token.value in h.world.entries && h.world.entries[h.world.peers[i].token.value].Holds(j)
  {
    assert SessionAgrees(h.world, i) && SessionAgrees(h.world, j);
    assert home.hash(h.world.peers[i].token.value) == home.hash(h.world.peers[j].token.value);
    LiveIsHeld(h.world, h.world.peers[j].token.value, j);
  }

  /** One token names the object, so at most the two of one pairing hold slots. */
  lemma AtMostTwoHoldSlots(home: Home, h: Host)
    requires HostInv(home, h) && Injective(home.hash)
    ensures |Slots(h)| <= 2
  {
    if Slots(h) != [] {
      var i := Slots(h)[0];
      assert i in Slots(h);
      SlotsAreOfOneRow(home, h, i, i);
      var e := h.world.entries[h.world.peers[i].token.value];
      var two := if e.Parked? then {e.peer} else {e.first, e.second};
      forall j | j in Slots(h)
        ensures j in two
      {
        SlotsAreOfOneRow(home, h, i, j);
      }
      WhereIsUnrepeated(h.order, h.world.peers, HoldingSlot);
      NoMoreThan(Slots(h), two);
    }
  }

  /** Whatever has happened, an arrival is taken: at most two hold pairing slots and three are greeting. */
  lemma NobodyIsRefused(cfg: Config, home: Home, es: seq<HostEvent>)
    requires Injective(home.hash)
    ensures var h := RunForgetting(cfg, home, es); Accepts(h) && |Slots(h)| <= 2 && |Greeters(h)| <= MAX_GREETING_SOCKETS
  {
    ForgettingIsUnobservable(cfg, home, es);
    KeepingKeepsHostInv(cfg, home, es);
    AtMostTwoHoldSlots(home, RunKeeping(cfg, home, es));
  }

  /** Room is made only when the greeting slots are full, and only by the one silent longest; nobody else is touched. */
  lemma OnlyTheLongestSilentIsDisplaced(h: Host, i: Id)
    requires i in h.world.peers && MadeRoom(h).peers[i] != h.world.peers[i]
    ensures i in Greeters(h) && |Greeters(h)| >= MAX_GREETING_SOCKETS
    ensures forall j :: j in Greeters(h) ==> h.world.peers[i].openedAt <= h.world.peers[j].openedAt
    ensures MadeRoom(h).peers[i] == Ended(h.world.peers[i], Capacity)
    ensures forall j :: j in h.world.peers && j != i ==> MadeRoom(h).peers[j] == h.world.peers[j]
  {
  }
}
