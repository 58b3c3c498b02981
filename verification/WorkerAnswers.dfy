/**
 * What the Durable Object answers an arrival and a stranger's hello with, after any run, read off the sockets.
 */
module WorkerAnswers {
  import opened Wrappers
  import opened RateLimit
  import opened RelayModel
  import opened RelayInvariant
  import opened RelayAnswers
  import opened WorkerModel
  import opened WorkerRun

  /** Those that have not said hello yet. */
  function Silent(peers: map<Id, Peer>): set<Id> {
    set i | i in peers && peers[i].state.Greeting?
  }

  /** An accepted socket, nothing put on it yet, with full budgets. */
  predicate FreshFrom(cfg: Config, p: Peer, at: int) {
    && p.state.Greeting? && p.token.None? && p.socket == Socket(true, 0, []) && p.openedAt == at && p.lastHeardAt == at
    && p.frameBudget == BucketState(cfg.maxFramesPerSecond as real, at)
    && p.byteBudget == BucketState(cfg.maxBytesPerSecond as real, at)
  }

  /** Three were silent: the one silent longest is sent off to make room. */
  ghost predicate Displaces(peers: map<Id, Peer>, peers': map<Id, Peer>, gone: Id) {
    && gone in Silent(peers) && gone in peers' && (forall k :: k in Silent(peers) ==> peers[gone].openedAt <= peers[k].openedAt)
    && SentOff(peers[gone], peers'[gone], Capacity)
    && forall k :: k in peers && k != gone ==> k in peers' && peers'[k] == peers[k]
  }

  lemma ForgettingExtends(cfg: Config, home: Home, es: seq<HostEvent>, e: HostEvent)
    ensures var h := RunForgetting(cfg, home, es);
            RunForgetting(cfg, home, es + [e])
              == Applied(cfg, home, Host(Rebuilt(h.order, h.world.peers, h.world.minted), h.order), e)
  {
    assert (es + [e])[..|es + [e]| - 1] == es;
  }

  lemma GreetersAreTheSilent(h: Host)
    requires Lists(h.order, h.world.peers)
    ensures (forall i :: i in Greeters(h) <==> i in Silent(h.world.peers)) && |Greeters(h)| == |Silent(h.world.peers)|
  {
    WhereIsUnrepeated(h.order, h.world.peers, StillGreeting);
    CountOf(Greeters(h), Silent(h.world.peers));
  }

  lemma {:induction false} CountOf(ids: seq<Id>, all: set<Id>)
    requires Unrepeated(ids) && forall i :: i in ids <==> i in all
    ensures |ids| == |all|
  {
    if ids == [] {
      assert all == {};
    } else {
      assert ids[0] in ids && ids[0] !in ids[1..];
      CountOf(ids[1..], all - {ids[0]});
    }
  }

  /**
   * After any run a newcomer is let in, last in order. Nobody else notices unless three are silent already, which are as
   * many as there ever are: then one of those silent longest is told there is no room, and no other is touched.
   */
  lemma ArrivalIsAnswered(cfg: Config, home: Home, es: seq<HostEvent>, i: Id, at: int)
    requires Injective(home.hash) && i !in RunForgetting(cfg, home, es).world.peers
    ensures var h, h' := RunForgetting(cfg, home, es), RunForgetting(cfg, home, es + [Arrive(i, at)]);
            var peers, peers' := h.world.peers, h'.world.peers;
            && h'.order == h.order + [i] && peers'.Keys == peers.Keys + {i} && FreshFrom(cfg, peers'[i], at) && |Silent(peers)| <= 3
            && (|Silent(peers)| < 3 ==> forall k :: k in peers ==> peers'[k] == peers[k])
            && (|Silent(peers)| == 3 ==> exists gone :: Displaces(peers, peers', gone))
  {
    var h := RunForgetting(cfg, home, es);
    var g := Host(Rebuilt(h.order, h.world.peers, h.world.minted), h.order);
    NobodyIsRefused(cfg, home, es);
    ForgettingIsUnobservable(cfg, home, es);
    KeepingKeepsHostInv(cfg, home, es);
    ForgettingExtends(cfg, home, es, Arrive(i, at));
    GreetersAreTheSilent(g);
    RoomIsMadeFor(cfg, g, i, at);
  }

  lemma RoomIsMadeFor(cfg: Config, h: Host, i: Id, at: int)
    requires i !in h.world.peers && Accepts(h) && |Greeters(h)| <= 3
    requires forall k :: k in Greeters(h) <==> k in Silent(h.world.peers)
    ensures var peers, h' := h.world.peers, AfterArrival(cfg, h, i, at);
            var peers' := h'.world.peers;
            && h'.order == h.order + [i] && peers'.Keys == peers.Keys + {i} && FreshFrom(cfg, peers'[i], at)
            && (|Greeters(h)| < 3 ==> forall k :: k in peers ==> peers'[k] == peers[k])
            && (|Greeters(h)| == 3 ==> exists gone :: Displaces(peers, peers', gone))
  {
    var peers := h.world.peers;
    if |Greeters(h)| == 3 {
      var gone := Oldest(Greeters(h), peers);
      assert gone in Silent(peers);
      EndedIsSentOff(peers[gone], Capacity);
      assert Displaces(peers, AfterArrival(cfg, h, i, at).world.peers, gone);
    }
  }

  /** The same session, but for when it was last heard. */
  predicate OnlyHeard(p: Peer, q: Peer) {
    q.(lastHeardAt := p.lastHeardAt, awaitingPong := p.awaitingPong) == p
  }

  lemma WokenAgrees(cfg: Config, home: Home, es: seq<HostEvent>)
    ensures var h := RunForgetting(cfg, home, es); Inv(Rebuilt(h.order, h.world.peers, h.world.minted))
  {
    var k := RunKeeping(cfg, home, es);
    ForgettingIsUnobservable(cfg, home, es);
    KeepingKeepsHostInv(cfg, home, es);
    ReparkedKeepsHostInv(home, k);
    RebuiltIsAlike(k.world, k.order);
    AlikeKeepsInv(Rebuilt(k.order, k.world.peers, k.world.minted), Reparked(k.world));
  }

  /** Turned away before anything joined: nobody else is in on it. */
  ghost predicate TurnedAway(w: World, w': World, i: Id) {
    && i in w.peers && w'.peers.Keys == w.peers.Keys && w'.minted == w.minted
    && SentOff(w.peers[i], w'.peers[i], BadHello) && w'.peers[i].token == w.peers[i].token
    && forall k :: k in w.peers && k != i ==> OnlyHeard(w.peers[k], w'.peers[k])
  }

  lemma ClosingTurnsAway(w: World, heard: map<Id, int>, i: Id)
    requires Inv(w) && i in w.peers && w.peers[i].state.Greeting?
    ensures TurnedAway(w, AfterClose(HeardAll(w, heard), i, BadHello), i)
  {
    var g := HeardAll(w, heard);
    HeardKeepsInv(w, heard);
    assert SessionAgrees(g, i);
    EndedIsSentOff(g.peers[i], BadHello);
    assert AfterClose(g, i, BadHello) == With(g, i, Ended(g.peers[i], BadHello));
  }

  /**
   * After any run a silent peer whose hello is for another rendezvous is told it was a bad hello and takes no place;
   * nobody else hears of it.
   */
  lemma StrangerIsTurnedAway(cfg: Config, home: Home, es: seq<HostEvent>, i: Id, text: TextFrame, at: int, heard: map<Id, int>)
    requires var peers := RunForgetting(cfg, home, es).world.peers; i in peers && peers[i].state.Greeting?
    requires text.HelloText? && home.hash(text.token) != home.name
    ensures TurnedAway(RunForgetting(cfg, home, es).world, RunForgetting(cfg, home, es + [Say(i, text, at, heard)]).world, i)
  {
    var h := RunForgetting(cfg, home, es);
    WokenAgrees(cfg, home, es);
    ForgettingExtends(cfg, home, es, Say(i, text, at, heard));
    ClosingTurnsAway(Rebuilt(h.order, h.world.peers, h.world.minted), heard, i);
  }
}
