/**
 * What holds of the relay over every run: who is in the table, what each peer hears, where content
 * goes, and what each peer is told when it is closed.
 */
module RelayTheorems {
  import opened Wrappers
  import opened RateLimit
  import opened RelayModel
  import opened RelayInvariant
  import opened RelayRun
  import opened RelayHistory

  /** The content frames `i` sent while it was paired, in order, whatever became of them. */
  function Sent(cfg: Config, es: seq<Event>, i: Id): seq<Payload> {
    if es == [] then []
    else
      var before := es[..|es| - 1];
      var e := es[|es| - 1];
      var w := Run(cfg, before).world;
      Sent(cfg, before, i) +
      (if e.BinaryIn? && e.i == i && i in w.peers && w.peers[i].state.Paired? then [e.payload] else [])
  }

  /** What `j` has heard is a prefix of what `i` sent, and all of it until one of them is gone. */
  ghost predicate Flows(w: World, sent: seq<Payload>, i: Id, j: Id)
    requires i in w.peers && j in w.peers
  {
    var heard := Content(w.peers[j].socket.wire);
    heard <= sent && (heard == sent || w.peers[i].state.Closed? || !w.peers[j].socket.open)
  }

  ghost predicate HasMate(w: World, i: Id) {
    exists j :: Mates(w, i, j)
  }

  ghost predicate PairToldBy(w: World, down: bool, i: Id, j: Id)
    requires i in w.peers && j in w.peers
  {
    var x := LastWord(w.peers[i].socket.wire);
    var y := LastWord(w.peers[j].socket.wire);
    Accounted(x, y) || (down && GivenOnly(x, GoingAway) && GivenOnly(y, GoingAway))
  }

  ghost predicate LoneToldBy(p: Peer, down: bool) {
    LoneTold(p) || (down && LastWord(p.socket.wire) == Some(GoingAway))
  }

  // ---------------------------------------------------------------- the parts of the story

  type Tally = map<Id, seq<Payload>>

  ghost predicate WiresOk(w: World) {
    forall i {:trigger WireOk(w.peers[i])} :: i in w.peers ==> WireOk(w.peers[i])
  }

  /** Nothing was heard or counted as sent by a session before it was paired; a session once paired has its mate. */
  ghost predicate UnpairedAt(w: World, sent: Tally, i: Id)
    requires i in w.peers && i in sent
  {
    if w.peers[i].sessionId.None? then Content(w.peers[i].socket.wire) == [] && sent[i] == [] else HasMate(w, i)
  }

  ghost predicate FlowStory(w: World, sent: Tally) {
    && sent.Keys == w.peers.Keys
    && (forall i {:trigger UnpairedAt(w, sent, i)} :: i in w.peers ==> UnpairedAt(w, sent, i))
    && (forall i, j :: Mates(w, i, j) ==> Flows(w, sent[i], i, j))
  }

  ghost predicate AllTold(w: World, down: bool) {
    && (forall i, j :: Mates(w, i, j) && w.peers[i].state.Closed? ==> PairToldBy(w, down, i, j))
    && (forall i {:trigger LoneToldBy(w.peers[i], down)} ::
          i in w.peers && w.peers[i].sessionId.None? && w.peers[i].state.Closed? ==> LoneToldBy(w.peers[i], down))
  }

  ghost predicate Story(r: Relay, sent: Tally) {
    RelayInv(r) && WiresOk(r.world) && FlowStory(r.world, sent) && AllTold(r.world, r.shuttingDown)
  }

  function Counted(w: World, sent: Tally, e: Event, i: Id): seq<Payload> {
    (if i in sent then sent[i] else []) +
    (if e.BinaryIn? && e.i == i && i in w.peers && w.peers[i].state.Paired? then [e.payload] else [])
  }

  function TallyAfter(w: World, w': World, sent: Tally, e: Event): Tally {
    map i | i in w'.peers :: Counted(w, sent, e, i)
  }

  // ---------------------------------------------------------------- the kinds of event

  ghost predicate Spliced(w: World, w': World, e: Event) {
    e.BinaryIn? && e.i in w.partners && SplicedTo(w, w', w.partners[e.i], e.payload) && e.i in w.peers && w.peers[e.i].state.Paired?
  }

  /** A frame not spliced to the partner of the paired session that sent it ends the flow. */
  ghost predicate FlowEnds(w: World, w': World, e: Event) {
    e.BinaryIn? && e.i in w.peers && w.peers[e.i].state.Paired? ==>
      e.i in w.partners && w.partners[e.i] in w'.peers && e.i in w'.peers &&
      (w'.peers[e.i].state.Closed? || !w'.peers[w.partners[e.i]].socket.open)
  }

  ghost predicate PairsSomeone(w: World, w': World) {
    exists i, j :: PairsUp(w, w', i, j)
  }

  /** Every event but an arrival and a shutdown is one of three kinds. */
  lemma KindsOfEvent(cfg: Config, r: Relay, e: Event)
    requires RelayInv(r) && WiresOk(r.world) && !e.Shutdown? && !e.Connect?
    ensures var w := r.world; var w' := WorldAfter(cfg, r, e);
            || (Honest(w, w') && FlowEnds(w, w', e))
            || (PairsSomeone(w, w') && e.TextIn?)
            || Spliced(w, w', e)
  {
    var w := r.world;
    match e
    case TextIn(i, text, at) =>
      if i in w.peers {
        TextEffect(cfg, w, i, text, at);
        assert MakesPair(w, i, text) ==> PairsUp(w, WorldAfter(cfg, r, e), i, w.entries[text.token].peer);
      }
    case BinaryIn(i, payload, at) =>
      if i in w.peers {
        BinaryEffect(cfg, w, i, payload, at);
      }
    case PongIn(i, at) =>
      if i in w.peers {
        OneLives(w, i, w.peers[i].(awaitingPong := false, lastHeardAt := at));
      }
    case Hangup(i) =>
      if i in w.peers {
        assert WireOk(w.peers[i]);
        HangupIsHonest(w, i);
      }
    case SweepAt(at) =>
      SweepIsHonest(cfg, w, r.connections, at);
    case LineDown(i) =>
      if i in w.peers {
        OneLives(w, i, w.peers[i].(socket := w.peers[i].socket.(open := false)));
      }
    case Backlog(i, bytes) =>
      if i in w.peers {
        OneLives(w, i, w.peers[i].(socket := w.peers[i].socket.(backlog := bytes)));
      }
  }

  // ---------------------------------------------------------------- each kind keeps the story

  lemma HonestKeepsFlow(w: World, w': World, sent: Tally, e: Event)
    requires Inv(w) && Honest(w, w') && FlowEnds(w, w', e) && FlowStory(w, sent)
    ensures FlowStory(w', TallyAfter(w, w', sent, e))
  {
    var sent' := TallyAfter(w, w', sent, e);
    forall i | i in w'.peers
      ensures UnpairedAt(w', sent', i)
    {
      assert UnpairedAt(w, sent, i);
      HonestKeepsMates(w, w', i);
    }
    forall i, j | Mates(w', i, j)
      ensures Flows(w', sent'[i], i, j)
    {
      assert Follows(w.peers[i], w'.peers[i]) && Follows(w.peers[j], w'.peers[j]);
      assert Mates(w, i, j) && Flows(w, sent[i], i, j);
      HonestAdvances(w, w', e, sent[i], i, j);
    }
  }

  lemma HonestKeepsMates(w: World, w': World, i: Id)
    requires Inv(w) && Honest(w, w') && i in w.peers
    ensures w.peers[i].sessionId.Some? && HasMate(w, i) ==> HasMate(w', i)
    ensures w'.peers[i].sessionId == w.peers[i].sessionId && Content(w'.peers[i].socket.wire) == Content(w.peers[i].socket.wire)
    ensures w.peers[i].sessionId.None? ==> !w.peers[i].state.Paired?
  {
    assert Follows(w.peers[i], w'.peers[i]) && SessionAgrees(w, i);
    if HasMate(w, i) {
      var j :| Mates(w, i, j);
      assert Follows(w.peers[j], w'.peers[j]);
      assert Mates(w', i, j);
    }
  }

  lemma HonestAdvances(w: World, w': World, e: Event, sent: seq<Payload>, i: Id, j: Id)
    requires Inv(w) && Honest(w, w') && FlowEnds(w, w', e) && Mates(w, i, j) && Flows(w, sent, i, j)
    ensures Flows(w', sent + if e.BinaryIn? && e.i == i && w.peers[i].state.Paired? then [e.payload] else [], i, j)
  {
    assert Follows(w.peers[i], w'.peers[i]) && Follows(w.peers[j], w'.peers[j]);
    assert MatesAgree(w, i, j);
    assert sent + [] == sent;
  }

  lemma HonestKeepsTold(w: World, w': World, down: bool)
    requires Inv(w) && Inv(w') && Honest(w, w') && AllTold(w, down)
    ensures AllTold(w', down)
  {
    forall i, j | Mates(w', i, j) && w'.peers[i].state.Closed?
      ensures PairToldBy(w', down, i, j)
    {
      assert Follows(w.peers[i], w'.peers[i]) && Follows(w.peers[j], w'.peers[j]);
      assert Mates(w, i, j) && MatesAgree(w, i, j) && MatesAgree(w, j, i);
      if w.peers[i].state.Closed? {
        assert PairToldBy(w, down, i, j);
      }
    }
    forall i | i in w'.peers && w'.peers[i].sessionId.None? && w'.peers[i].state.Closed?
      ensures LoneToldBy(w'.peers[i], down)
    {
      assert Follows(w.peers[i], w'.peers[i]);
      assert w.peers[i].state.Closed? ==> LoneToldBy(w.peers[i], down);
      assert !w.peers[i].state.Closed? ==> LoneTold(w'.peers[i]);
    }
  }

  lemma HonestKeepsWires(w: World, w': World)
    requires Honest(w, w') && WiresOk(w)
    ensures WiresOk(w')
  {
    forall i | i in w'.peers
      ensures WireOk(w'.peers[i])
    {
      assert WireOk(w.peers[i]) && Follows(w.peers[i], w'.peers[i]);
    }
  }

  lemma HangupCloses(w: World, i: Id)
    requires Inv(w) && i in w.peers
    ensures AfterSocketClosed(LineDownAt(w, i), i).peers[i].state.Closed?
  {
    QuietKeepsInv(w, i, w.peers[i].(socket := w.peers[i].socket.(open := false)));
    var w1 := LineDownAt(w, i);
    if !w.peers[i].state.Closed? {
      ReleaseEndsTogether(w1, i, w1.peers[i].(state := Closed));
    }
  }

  lemma HonestKeepsWatch(cfg: Config, r: Relay, e: Event)
    requires RelayInv(r) && Honest(r.world, WorldAfter(cfg, r, e))
    ensures Watched(WorldAfter(cfg, r, e), ConnectionsAfter(r, e))
  {
    var w := r.world;
    var w' := WorldAfter(cfg, r, e);
    forall k | e.Hangup?
      ensures k in Without(r.connections, e.i) <==> k in r.connections && k != e.i
    {
      WithoutHasTheRest(r.connections, e.i);
    }
    if e.Hangup? && e.i in w.peers {
      HangupCloses(w, e.i);
    }
    forall i | i in w'.peers && !w'.peers[i].state.Closed?
      ensures i in ConnectionsAfter(r, e)
    {
      assert Follows(w.peers[i], w'.peers[i]);
    }
  }

  lemma PairingKeepsFlow(w: World, w': World, sent: Tally, e: Event, i: Id, j: Id)
    requires PairsUp(w, w', i, j) && Inv(w) && FlowStory(w, sent) && !e.BinaryIn?
    ensures FlowStory(w', TallyAfter(w, w', sent, e))
  {
    var sent' := TallyAfter(w, w', sent, e);
    forall k | k in sent
      ensures sent'[k] == sent[k]
    {
      assert sent[k] + [] == sent[k];
    }
    assert sent' == sent;
    forall k | k in w'.peers
      ensures UnpairedAt(w', sent, k)
    {
      assert UnpairedAt(w, sent, k);
      PairingMates(w, w', i, j, k);
    }
    forall k, l | Mates(w', k, l)
      ensures Flows(w', sent[k], k, l)
    {
      assert UnpairedAt(w, sent, k) && UnpairedAt(w, sent, l);
      PairingMatesOnly(w, w', i, j, k, l);
      if Mates(w, k, l) {
        assert Flows(w, sent[k], k, l);
      }
    }
  }

  lemma PairingMates(w: World, w': World, i: Id, j: Id, k: Id)
    requires PairsUp(w, w', i, j) && Inv(w) && k in w.peers
    ensures Content(w'.peers[k].socket.wire) == Content(w.peers[k].socket.wire)
    ensures if k == i || k == j then HasMate(w', k)
            else w'.peers[k] == w.peers[k] && (w.peers[k].sessionId.Some? && HasMate(w, k) ==> HasMate(w', k))
  {
    assert Mates(w', i, j) && Mates(w', j, i);
    if k != i && k != j && HasMate(w, k) {
      var l :| Mates(w, k, l);
      assert Mates(w', k, l);
    }
  }

  lemma PairingMatesOnly(w: World, w': World, i: Id, j: Id, k: Id, l: Id)
    requires PairsUp(w, w', i, j) && Inv(w) && Mates(w', k, l)
    ensures (w.peers[k].sessionId.None? && w.peers[l].sessionId.None?)
         || (Mates(w, k, l) && w'.peers[k] == w.peers[k] && w'.peers[l] == w.peers[l])
    ensures Content(w'.peers[l].socket.wire) == Content(w.peers[l].socket.wire)
  {
  }

  lemma PairingKeepsRest(w: World, w': World, down: bool, i: Id, j: Id)
    requires PairsUp(w, w', i, j) && Inv(w) && Inv(w') && WiresOk(w) && AllTold(w, down)
    ensures WiresOk(w') && AllTold(w', down)
  {
    forall k | k in w'.peers
      ensures WireOk(w'.peers[k])
    {
      assert WireOk(w.peers[k]);
    }
    forall k, l | Mates(w', k, l) && w'.peers[k].state.Closed?
      ensures PairToldBy(w', down, k, l)
    {
      assert Mates(w, k, l) && PairToldBy(w, down, k, l);
    }
    forall k | k in w'.peers && w'.peers[k].sessionId.None? && w'.peers[k].state.Closed?
      ensures LoneToldBy(w'.peers[k], down)
    {
      assert LoneToldBy(w.peers[k], down);
    }
  }

  lemma SpliceKeepsFlow(w: World, w': World, sent: Tally, e: Event)
    requires Spliced(w, w', e) && Inv(w) && FlowStory(w, sent)
    ensures FlowStory(w', TallyAfter(w, w', sent, e))
  {
    var sent' := TallyAfter(w, w', sent, e);
    PartnersAreMates(w, e.i);
    forall k | k in w'.peers
      ensures UnpairedAt(w', sent', k)
    {
      SpliceKeepsUnpaired(w, w', sent, e, k);
    }
    forall k, l | Mates(w', k, l)
      ensures Flows(w', sent'[k], k, l)
    {
      SpliceKeepsFlowOf(w, w', sent, e, k, l);
    }
  }

  lemma SpliceKeepsFlowOf(w: World, w': World, sent: Tally, e: Event, k: Id, l: Id)
    requires Spliced(w, w', e) && Inv(w) && FlowStory(w, sent) && Mates(w', k, l)
    ensures Flows(w', TallyAfter(w, w', sent, e)[k], k, l)
  {
    PartnersAreMates(w, e.i);
    assert Mates(w, k, l) && Flows(w, sent[k], k, l);
    SpliceAdvances(w, w', e, sent[k], k, l);
  }

  lemma SpliceKeepsUnpaired(w: World, w': World, sent: Tally, e: Event, k: Id)
    requires Spliced(w, w', e) && Inv(w) && FlowStory(w, sent) && k in w'.peers
    ensures UnpairedAt(w', TallyAfter(w, w', sent, e), k)
  {
    PartnersAreMates(w, e.i);
    assert UnpairedAt(w, sent, k) && SessionAgrees(w, k);
    if w.peers[k].sessionId.Some? {
      var l :| Mates(w, k, l);
      assert Mates(w', k, l);
    } else {
      assert Follows(w.peers[k], w'.peers[k]);
    }
  }

  lemma SpliceAdvances(w: World, w': World, e: Event, sent: seq<Payload>, k: Id, l: Id)
    requires Spliced(w, w', e) && Inv(w) && Mates(w, k, l) && Flows(w, sent, k, l)
    ensures k in w'.peers && l in w'.peers
    ensures Flows(w', sent + if e.i == k && w.peers[k].state.Paired? then [e.payload] else [], k, l)
  {
    PartnersAreMates(w, e.i);
    var j := w.partners[e.i];
    if l == j {
      assert Mates(w, l, k) && Mates(w, l, e.i);
      assert Content(w'.peers[l].socket.wire) == Content(w.peers[l].socket.wire) + [e.payload];
    } else {
      assert k == e.i ==> Mates(w, k, j);
      assert Follows(w.peers[l], w'.peers[l]);
      assert sent + [] == sent;
    }
  }

  lemma SpliceLeavesClosed(w: World, w': World, e: Event, k: Id)
    requires Inv(w) && Spliced(w, w', e) && k in w.peers && w.peers[k].state.Closed?
    ensures w'.peers[k].socket.wire == w.peers[k].socket.wire && w'.peers[k].token == w.peers[k].token
  {
    PartnersAreMates(w, e.i);
    assert Follows(w.peers[k], w'.peers[k]);
  }

  lemma SpliceKeepsRest(w: World, w': World, down: bool, e: Event)
    requires Spliced(w, w', e) && Inv(w) && Inv(w') && WiresOk(w) && AllTold(w, down)
    ensures WiresOk(w') && AllTold(w', down)
  {
    forall k | k in w'.peers
      ensures WireOk(w'.peers[k]) && Quiet(w.peers[k], w'.peers[k])
    {
      assert WireOk(w.peers[k]);
    }
    forall k, l | Mates(w', k, l) && w'.peers[k].state.Closed?
      ensures PairToldBy(w', down, k, l)
    {
      SpliceLeavesClosed(w, w', e, k);
      assert Mates(w, k, l) && MatesAgree(w, k, l) && MatesAgree(w, l, k) && PairToldBy(w, down, k, l);
      SpliceLeavesClosed(w, w', e, l);
    }
    forall k | k in w'.peers && w'.peers[k].sessionId.None? && w'.peers[k].state.Closed?
      ensures LoneToldBy(w'.peers[k], down)
    {
      assert LoneToldBy(w.peers[k], down);
      SpliceLeavesClosed(w, w', e, k);
    }
  }

  // ---------------------------------------------------------------- arrivals and shutting down

  lemma ArrivalKeepsStory(cfg: Config, r: Relay, sent: Tally, e: Event)
    requires Story(r, sent) && e.Connect? && Inv(WorldAfter(cfg, r, e))
    ensures Story(Step(cfg, r, e), TallyAfter(r.world, WorldAfter(cfg, r, e), sent, e))
  {
    var w := r.world;
    var sent' := TallyAfter(w, WorldAfter(cfg, r, e), sent, e);
    assert forall k {:trigger Counted(w, sent, e, k)} :: k in sent ==> Counted(w, sent, e, k) == sent[k];
    if e.i in w.peers || r.shuttingDown {
      assert sent' == sent;
    } else {
      assert sent.Keys == w.peers.Keys && Counted(w, sent, e, e.i) == [];
      assert sent' == sent[e.i := []];
      NewcomerKeepsFlow(w, sent, e.i, Opened(cfg, e.at));
      NewcomerKeepsRest(w, r.shuttingDown, e.i, Opened(cfg, e.at));
    }
  }

  lemma NewcomerKeepsFlow(w: World, sent: Tally, i: Id, p: Peer)
    requires FlowStory(w, sent) && i !in w.peers
    requires p.sessionId.None? && Content(p.socket.wire) == []
    ensures FlowStory(With(w, i, p), sent[i := []])
  {
    var w' := With(w, i, p);
    forall k | k in w'.peers
      ensures UnpairedAt(w', sent[i := []], k)
    {
      if k != i {
        assert UnpairedAt(w, sent, k);
        if w.peers[k].sessionId.Some? {
          var l :| Mates(w, k, l);
          assert Mates(w', k, l);
        }
      }
    }
    forall k, l | Mates(w', k, l)
      ensures Flows(w', sent[i := []][k], k, l)
    {
      assert Mates(w, k, l) && Flows(w, sent[k], k, l);
    }
  }

  lemma NewcomerKeepsRest(w: World, down: bool, i: Id, p: Peer)
    requires WiresOk(w) && AllTold(w, down) && i !in w.peers
    requires p.sessionId.None? && !p.state.Closed? && WireOk(p)
    ensures WiresOk(With(w, i, p)) && AllTold(With(w, i, p), down)
  {
    var w' := With(w, i, p);
    forall k | k in w'.peers
      ensures WireOk(w'.peers[k])
    {
      assert k in w.peers ==> WireOk(w.peers[k]);
    }
    forall k, l | Mates(w', k, l) && w'.peers[k].state.Closed?
      ensures PairToldBy(w', down, k, l)
    {
      assert Mates(w, k, l) && PairToldBy(w, down, k, l);
    }
    forall k | k in w'.peers && w'.peers[k].sessionId.None? && w'.peers[k].state.Closed?
      ensures LoneToldBy(w'.peers[k], down)
    {
      assert LoneToldBy(w.peers[k], down);
    }
  }

  /** The relay going down tells every live session the same true thing. */
  lemma ShutdownKeepsStory(r: Relay, sent: Tally)
    requires Story(r, sent)
    ensures var w' := AfterShutdown(r.world, r.connections);
            FlowStory(w', TallyAfter(r.world, w', sent, Shutdown)) && WiresOk(w') && AllTold(w', true)
  {
    var w := r.world;
    var w' := AfterShutdown(w, r.connections);
    forall k | k in w.peers
      ensures SentAway(w.peers[k], w'.peers[k])
    {
      EndedFollows(w.peers[k], GoingAway);
      if !w.peers[k].state.Closed? {
        EndedIsTold(w.peers[k], GoingAway);
      }
    }
    assert forall k {:trigger Counted(w, sent, Shutdown, k)} :: k in sent ==> Counted(w, sent, Shutdown, k) == sent[k];
    assert TallyAfter(w, w', sent, Shutdown) == sent;
    SendingAwayKeepsFlow(w, w', sent);
    SendingAwayIsTold(w, w', r.shuttingDown);
  }

  ghost predicate SentAway(p: Peer, q: Peer) {
    Follows(p, q) && q.state.Closed? && (if p.state.Closed? then q == p else GivenOnly(LastWord(q.socket.wire), GoingAway))
  }

  ghost predicate AllSentAway(w: World, w': World) {
    w'.peers.Keys == w.peers.Keys && forall k {:trigger w'.peers[k]} :: k in w.peers ==> SentAway(w.peers[k], w'.peers[k])
  }

  lemma SendingAwayKeepsFlow(w: World, w': World, sent: Tally)
    requires FlowStory(w, sent) && AllSentAway(w, w')
    ensures FlowStory(w', sent)
  {
    forall k | k in w'.peers
      ensures UnpairedAt(w', sent, k)
    {
      assert UnpairedAt(w, sent, k);
      if w.peers[k].sessionId.Some? {
        var l :| Mates(w, k, l);
        assert Mates(w', k, l);
      }
    }
    forall k, l | Mates(w', k, l)
      ensures Flows(w', sent[k], k, l)
    {
      assert Mates(w, k, l) && Flows(w, sent[k], k, l);
    }
  }

  lemma SendingAwayIsTold(w: World, w': World, down: bool)
    requires Inv(w) && WiresOk(w) && AllTold(w, down) && AllSentAway(w, w')
    ensures WiresOk(w') && AllTold(w', true)
  {
    forall k | k in w'.peers
      ensures WireOk(w'.peers[k])
      ensures w'.peers[k].sessionId.None? ==> LoneToldBy(w'.peers[k], true)
    {
      assert WireOk(w.peers[k]);
      assert w.peers[k].state.Closed? && w.peers[k].sessionId.None? ==> LoneToldBy(w.peers[k], down);
    }
    forall k, l | Mates(w', k, l)
      ensures PairToldBy(w', true, k, l)
    {
      assert Mates(w, k, l) && Mates(w, l, k) && MatesAgree(w, k, l) && MatesAgree(w, l, k);
      assert w.peers[k].state.Closed? ==> PairToldBy(w, down, k, l);
    }
  }

  // ---------------------------------------------------------------- every run

  lemma StepKeepsStory(cfg: Config, r: Relay, sent: Tally, e: Event)
    requires Story(r, sent)
    ensures Story(Step(cfg, r, e), TallyAfter(r.world, WorldAfter(cfg, r, e), sent, e))
  {
    WorldKeepsInv(cfg, r, e);
    if e.Connect? {
      ArrivalKeepsStory(cfg, r, sent, e);
    } else if e.Shutdown? {
      ShutdownKeepsStory(r, sent);
    } else {
      KindsOfEvent(cfg, r, e);
      StepKeepsWatch(cfg, r, e);
      KindsKeepStory(r, WorldAfter(cfg, r, e), ConnectionsAfter(r, e), sent, e);
    }
  }

  lemma StepKeepsWatch(cfg: Config, r: Relay, e: Event)
    requires RelayInv(r) && WiresOk(r.world) && !e.Shutdown? && !e.Connect?
    ensures Watched(WorldAfter(cfg, r, e), ConnectionsAfter(r, e))
  {
    var w := r.world;
    var w' := WorldAfter(cfg, r, e);
    KindsOfEvent(cfg, r, e);
    if Honest(w, w') {
      HonestKeepsWatch(cfg, r, e);
    } else if Spliced(w, w', e) {
      PartnersAreMates(w, e.i);
    }
  }

  lemma KindsKeepStory(r: Relay, w': World, connections: seq<Id>, sent: Tally, e: Event)
    requires Story(r, sent) && Inv(w') && Watched(w', connections)
    requires || (Honest(r.world, w') && FlowEnds(r.world, w', e))
             || (PairsSomeone(r.world, w') && e.TextIn?)
             || Spliced(r.world, w', e)
    ensures Story(Relay(w', connections, r.shuttingDown), TallyAfter(r.world, w', sent, e))
  {
    var w := r.world;
    if Honest(w, w') && FlowEnds(w, w', e) {
      HonestKeepsFlow(w, w', sent, e);
      HonestKeepsTold(w, w', r.shuttingDown);
      HonestKeepsWires(w, w');
    } else if Spliced(w, w', e) {
      SpliceKeepsFlow(w, w', sent, e);
      SpliceKeepsRest(w, w', r.shuttingDown, e);
    } else {
      var i, j :| PairsUp(w, w', i, j);
      PairingKeepsFlow(w, w', sent, e, i, j);
      PairingKeepsRest(w, w', r.shuttingDown, i, j);
    }
  }

  function TallyOf(cfg: Config, es: seq<Event>): Tally {
    map i | i in Run(cfg, es).world.peers :: Sent(cfg, es, i)
  }

  lemma StepForgetsNobody(cfg: Config, r: Relay, e: Event)
    requires RelayInv(r) && WiresOk(r.world)
    ensures r.world.peers.Keys <= WorldAfter(cfg, r, e).peers.Keys
  {
    if !e.Shutdown? && !e.Connect? {
      KindsOfEvent(cfg, r, e);
    }
  }

  lemma {:induction false} StoryOfEveryRun(cfg: Config, es: seq<Event>)
    ensures Story(Run(cfg, es), TallyOf(cfg, es))
    ensures forall i :: i !in Run(cfg, es).world.peers ==> Sent(cfg, es, i) == []
  {
    if es == [] {
      StoryBegins(TallyOf(cfg, es));
    } else {
      var before := es[..|es| - 1];
      var e := es[|es| - 1];
      StoryOfEveryRun(cfg, before);
      StoryGrows(cfg, before, e);
      assert before + [e] == es;
    }
  }

  lemma StoryBegins(sent: Tally)
    requires sent == map[]
    ensures Story(START, sent)
  {
  }

  lemma StoryGrows(cfg: Config, before: seq<Event>, e: Event)
    requires Story(Run(cfg, before), TallyOf(cfg, before))
    requires forall i :: i !in Run(cfg, before).world.peers ==> Sent(cfg, before, i) == []
    ensures Story(Run(cfg, before + [e]), TallyOf(cfg, before + [e]))
    ensures forall i :: i !in Run(cfg, before + [e]).world.peers ==> Sent(cfg, before + [e], i) == []
  {
    var r := Run(cfg, before);
    StepKeepsStory(cfg, r, TallyOf(cfg, before), e);
    TallyGrows(cfg, before, e);
    StepForgetsNobody(cfg, r, e);
    assert (before + [e])[..|before + [e]| - 1] == before;
    forall i | i !in Run(cfg, before + [e]).world.peers
      ensures Sent(cfg, before + [e], i) == []
    {
      assert i !in r.world.peers;
    }
  }

  lemma TallyGrows(cfg: Config, before: seq<Event>, e: Event)
    requires forall i :: i !in Run(cfg, before).world.peers ==> Sent(cfg, before, i) == []
    ensures TallyOf(cfg, before + [e])
         == TallyAfter(Run(cfg, before).world, WorldAfter(cfg, Run(cfg, before), e), TallyOf(cfg, before), e)
  {
    var es := before + [e];
    assert es[..|es| - 1] == before;
    forall i
      ensures Sent(cfg, es, i) == Counted(Run(cfg, before).world, TallyOf(cfg, before), e, i)
    {
    }
  }

  // ---------------------------------------------------------------- the theorems

  /**
   * Who is paired. After every run `partners` is exactly the symmetric, irreflexive relation of the
   * paired rows; a session is waiting iff it is alone in a waiting row under its token, and paired
   * iff it is in a paired row with another live session of the same token; a closed one is in no row.
   */
  lemma TableIsExact(cfg: Config, es: seq<Event>, i: Id, j: Id, t: Token)
    ensures var w := Run(cfg, es).world;
      && (i in w.partners && w.partners[i] == j <==>
            exists s :: s in w.entries && w.entries[s].Spliced? && w.entries[s].Holds(i) && w.entries[s].Other(i) == j)
      && (i in w.partners && w.partners[i] == j ==> i != j && j in w.partners && w.partners[j] == i)
      && (i in w.peers ==>
            && (w.peers[i].state.Waiting? <==>
                  exists s :: s in w.entries && w.entries[s].Parked? && w.entries[s].peer == i && w.peers[i].token == Some(s))
            && (w.peers[i].state.Paired? <==>
                  exists s :: s in w.entries && w.entries[s].Spliced? && w.entries[s].Holds(i) && w.peers[i].token == Some(s)))
      && (t in w.entries && w.entries[t].Holds(i) ==> i in w.peers && !w.peers[i].state.Closed? && w.peers[i].token == Some(t))
  {
    StoryOfEveryRun(cfg, es);
    var w := Run(cfg, es).world;
    forall s | s in w.entries && w.entries[s].Holds(i)
      ensures i in w.peers && w.peers[i].token == Some(s)
      ensures w.peers[i].state == if w.entries[s].Parked? then Waiting else Paired
      ensures w.entries[s].Spliced? ==> i in w.partners && w.partners[i] == w.entries[s].Other(i)
    {
      HoldersCarryToken(w, s, i);
    }
    if i in w.partners {
      PartnersAreMates(w, i);
    }
    assert i in w.peers ==> SessionAgrees(w, i);
  }

  /**
   * The splice. Whatever a session has ever had put on its socket as content is, unchanged and in order,
   * a prefix of the content its one mate sent after they were paired, and the whole of it while the mate
   * is live and the socket open; a session never paired hears none.
   */
  lemma ContentIsThePartnersPrefix(cfg: Config, es: seq<Event>, j: Id)
    requires j in Run(cfg, es).world.peers
    ensures var w := Run(cfg, es).world;
      var heard := Content(w.peers[j].socket.wire);
      if w.peers[j].sessionId.None? then heard == []
      else exists i ::
        Mates(w, i, j) && (forall k :: Mates(w, k, j) ==> k == i) && w.peers[i].token == w.peers[j].token &&
        heard <= Sent(cfg, es, i) &&
        (!w.peers[i].state.Closed? && w.peers[j].socket.open ==> heard == Sent(cfg, es, i))
  {
    StoryOfEveryRun(cfg, es);
    var w := Run(cfg, es).world;
    var sent := TallyOf(cfg, es);
    assert UnpairedAt(w, sent, j);
    if w.peers[j].sessionId.Some? {
      var i :| Mates(w, j, i);
      assert Mates(w, i, j) && MatesAgree(w, i, j) && Flows(w, sent[i], i, j);
      forall k | Mates(w, k, j)
        ensures k == i
      {
        assert Mates(w, j, k);
      }
    }
  }

  /**
   * What a peer hears, start to finish, follows the grammar of `Phase`: in particular it is given at most one
   * close and nothing after it, and while its socket is open the grammar's phase is the session's own state.
   */
  lemma EveryPeerHearsOneStory(cfg: Config, es: seq<Event>, i: Id)
    requires i in Run(cfg, es).world.peers
    ensures !PhaseOf(Run(cfg, es).world.peers[i].socket.wire).Broken? && WireOk(Run(cfg, es).world.peers[i])
  {
    StoryOfEveryRun(cfg, es);
    assert WireOk(Run(cfg, es).world.peers[i]);
  }

  /**
   * Close codes tell the truth. Of two mates both are live or both closed, and closed mates were told alike
   * (superseded, idle, or the relay going away) or one was told a fault of its own, or nothing because it hung
   * up or had stopped answering, and the other at most that its partner was gone. A session never paired was told its own
   * fault. The relay only says it is going away when it is.
   */
  lemma ClosesTellTheTruth(cfg: Config, es: seq<Event>, i: Id)
    requires i in Run(cfg, es).world.peers && Run(cfg, es).world.peers[i].state.Closed?
    ensures var r := Run(cfg, es);
      var w := r.world;
      if w.peers[i].sessionId.None? then LoneToldBy(w.peers[i], r.shuttingDown)
      else exists j :: Mates(w, i, j) && w.peers[j].state.Closed? && PairToldBy(w, r.shuttingDown, i, j)
  {
    StoryOfEveryRun(cfg, es);
    var r := Run(cfg, es);
    var w := r.world;
    assert UnpairedAt(w, TallyOf(cfg, es), i);
    if w.peers[i].sessionId.Some? {
      var j :| Mates(w, i, j);
      assert MatesAgree(w, i, j) && Mates(w, j, i) && MatesAgree(w, j, i);
      assert PairToldBy(w, r.shuttingDown, i, j);
    } else {
      assert LoneToldBy(w.peers[i], r.shuttingDown);
    }
  }

  /** "Partner gone" goes only to a session whose partner was closed on its own account: for a fault of its own, or unheard. */
  lemma PartnerGoneIsTrue(cfg: Config, es: seq<Event>, i: Id)
    requires i in Run(cfg, es).world.peers
    requires LastWord(Run(cfg, es).world.peers[i].socket.wire) == Some(PartnerGone)
    ensures var w := Run(cfg, es).world;
      exists j :: Mates(w, i, j) && w.peers[j].state.Closed? &&
        var y := LastWord(w.peers[j].socket.wire);
        y.None? || y.value in OWN_FAULTS
  {
    StoryOfEveryRun(cfg, es);
    var w := Run(cfg, es).world;
    assert WireOk(w.peers[i]);
    if !w.peers[i].state.Closed? {
      LiveHasNoLastWord(w.peers[i]);
    }
    ClosesTellTheTruth(cfg, es, i);
  }

  /** The relay says it is going away only when it is: its own lost-session branch is never reached. */
  lemma NobodyIsSentAwayForNothing(cfg: Config, es: seq<Event>, i: Id)
    requires i in Run(cfg, es).world.peers && !Run(cfg, es).shuttingDown
    ensures LastWord(Run(cfg, es).world.peers[i].socket.wire) != Some(GoingAway)
    ensures LastWord(Run(cfg, es).world.peers[i].socket.wire) != Some(Capacity)
  {
    StoryOfEveryRun(cfg, es);
    var w := Run(cfg, es).world;
    assert WireOk(w.peers[i]);
    if !w.peers[i].state.Closed? {
      LiveHasNoLastWord(w.peers[i]);
    } else {
      ClosesTellTheTruth(cfg, es, i);
    }
  }

  /** A hello on a live session gives both old halves "superseded" and leaves the newcomer waiting in their place. */
  lemma SupersessionTellsBoth(cfg: Config, es: seq<Event>, i: Id, t: Token, bytes: nat, at: int)
    requires var w := Run(cfg, es).world;
             i in w.peers && w.peers[i].state.Greeting? && t in w.entries && w.entries[t].Spliced?
    ensures var w := Run(cfg, es).world;
      var w' := Run(cfg, es + [TextIn(i, HelloText(t, bytes), at)]).world;
      var e := w.entries[t];
      && t in w'.entries && w'.entries[t].Parked? && w'.entries[t].peer == i
      && i in w'.peers && w'.peers[i].state.Waiting?
      && e.first in w.peers && e.first in w'.peers && e.second in w.peers && e.second in w'.peers
      && w'.peers[e.first] == Ended(w.peers[e.first], Superseded)
      && w'.peers[e.second] == Ended(w.peers[e.second], Superseded)
  {
    StoryOfEveryRun(cfg, es);
    var w := Run(cfg, es).world;
    var e := TextIn(i, HelloText(t, bytes), at);
    assert (es + [e])[..|es + [e]| - 1] == es;
    var p := w.peers[i].(lastHeardAt := at);
    QuietKeepsInv(w, i, p);
    HelloSupersedes(With(w, i, p), i, HelloText(t, bytes), at);
    assert EntryAgrees(With(w, i, p), t);
  }

  predicate Concerns(e: Event, i: Id) {
    (e.TextIn? || e.BinaryIn? || e.PongIn? || e.Hangup? || e.LineDown? || e.Backlog?) && e.i == i
  }

  ghost predicate OnlyItself(w: World, w': World, i: Id) {
    && w'.entries == w.entries && w'.partners == w.partners && w'.minted == w.minted && w'.peers.Keys == w.peers.Keys
    && (forall k :: k in w.peers && k != i ==> w'.peers[k] == w.peers[k])
    && (i in w.peers ==> w'.peers[i].state == w.peers[i].state && w'.peers[i].socket.wire == w.peers[i].socket.wire)
  }

  lemma ClosedEventIsHarmless(cfg: Config, r: Relay, i: Id, e: Event)
    requires i in r.world.peers && r.world.peers[i].state.Closed? && Concerns(e, i)
    ensures OnlyItself(r.world, Step(cfg, r, e).world, i)
  {
  }

  lemma OnlyItselfThen(a: World, b: World, c: World, i: Id)
    requires OnlyItself(a, b, i) && OnlyItself(b, c, i)
    ensures OnlyItself(a, c, i)
  {
  }

  /**
   * However long a closed session goes on talking, nothing it says or does touches the table or anyone else, or is
   * answered: a superseded peer's late frames and late close evict nobody.
   */
  lemma {:induction false} ClosedSessionsAreHarmless(cfg: Config, es: seq<Event>, late: seq<Event>, i: Id)
    requires i in Run(cfg, es).world.peers && Run(cfg, es).world.peers[i].state.Closed?
    requires forall k :: 0 <= k < |late| ==> Concerns(late[k], i)
    ensures OnlyItself(Run(cfg, es).world, Run(cfg, es + late).world, i)
  {
    if late == [] {
      assert es + late == es;
    } else {
      var front, e := late[..|late| - 1], late[|late| - 1];
      ClosedSessionsAreHarmless(cfg, es, front, i);
      assert es + late == (es + front) + [e];
      RunExtends(cfg, es + front, e);
      ClosedEventIsHarmless(cfg, Run(cfg, es + front), i, e);
      OnlyItselfThen(Run(cfg, es).world, Run(cfg, es + front).world, Run(cfg, es + late).world, i);
    }
  }
}
