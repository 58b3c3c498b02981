/**
 * What one session can hear, and how one event can change one session.
 *
 * `Phase` is the grammar of a socket's whole log: at most one `waiting`, at most one `paired`, content only
 * after it, at most one closing announcement, the close it announced, and nothing after that.
 */
module RelayHistory {
  import opened Wrappers
  import opened RateLimit
  import opened RelayModel
  import opened RelayInvariant
  import opened RelayRun

  datatype Phase = Silent | Told | Talking(session: nat) | Warned(code: CloseCode) | Over | Broken

  function Next(phase: Phase, item: Wire): Phase {
    match (phase, item)
    case (Over, _) => Broken
    case (Broken, _) => Broken
    case (Warned(c), Close(d)) => if c == d then Over else Broken
    case (Warned(_), _) => Broken
    case (_, Terminate) => Over
    case (_, Text(ClosingFrame(c))) => Warned(c)
    case (_, Text(PongFrame)) => phase
    case (_, Ping) => phase
    case (Silent, Text(WaitingFrame)) => Told
    case (Silent, Text(PairedFrame(s, _))) => Talking(s)
    case (Told, Text(PairedFrame(s, _))) => Talking(s)
    case (Talking(_), Binary(_)) => phase
    case _ => Broken
  }

  function PhaseOf(wire: seq<Wire>): Phase {
    if wire == [] then Silent else Next(PhaseOf(wire[..|wire| - 1]), wire[|wire| - 1])
  }

  /** The content on a socket, in order. */
  function Content(wire: seq<Wire>): seq<Payload> {
    if wire == [] then []
    else Content(wire[..|wire| - 1]) +
         (if wire[|wire| - 1].Binary? then [wire[|wire| - 1].payload] else [])
  }

  lemma PutOne(s: Socket, item: Wire)
    ensures PhaseOf(Put(s, item).wire) == Next(PhaseOf(s.wire), item)
    ensures Content(Put(s, item).wire) == Content(s.wire) + if item.Binary? then [item.payload] else []
  {
    assert (s.wire + [item])[..|s.wire|] == s.wire;
  }

  /** The log of a session's socket and the session's own state tell the same story. */
  ghost predicate WireOk(p: Peer) {
    var phase := PhaseOf(p.socket.wire);
    && !phase.Broken?
    && (!p.state.Closed? ==> !phase.Warned? && !phase.Over?)
    && (p.socket.open ==>
          match p.state
          case Greeting => phase == Silent
          case Waiting => phase == Told
          case Paired => phase.Talking? && p.sessionId == Some(phase.session)
          case Closed => false)
  }

  /** How a session may look after an event that neither pairs it nor splices anything to it. */
  ghost predicate Follows(p: Peer, q: Peer) {
    && (p.state.Closed? ==> q.state.Closed? && q.socket.wire == p.socket.wire && q.token == p.token)
    && (!p.socket.open ==> !q.socket.open)
    && q.sessionId == p.sessionId
    && Content(q.socket.wire) == Content(p.socket.wire)
    && (WireOk(p) ==> WireOk(q))
  }

  ghost predicate AllFollow(w: World, w': World) {
    w.peers.Keys == w'.peers.Keys && forall k :: k in w.peers ==> Follows(w.peers[k], w'.peers[k])
  }

  /** The close a socket was given, if it was given one. */
  function LastWord(wire: seq<Wire>): Option<CloseCode> {
    if wire != [] && wire[|wire| - 1].Close? then Some(wire[|wire| - 1].code) else None
  }

  /** Faults a session can be closed for by itself, once it has said an accepted hello. */
  const OWN_FAULTS: set<CloseCode> := {RateLimited, TooLarge, Protocol, SlowConsumer}

  /** What a session that was never paired may have been closed for: `parked` says whether it had said its hello. */
  predicate LoneCause(parked: bool, c: CloseCode) {
    if parked then c in OWN_FAULTS || c == PairTimeout else c == BadHello || c == Protocol
  }

  predicate GivenOnly(x: Option<CloseCode>, c: CloseCode) {
    x == None || x == Some(c)
  }

  /** How the two halves of a pair may have been ended: one by its own doing and the other as left behind, or both alike. */
  predicate Accounted(x: Option<CloseCode>, y: Option<CloseCode>) {
    || ((x.None? || x.value in OWN_FAULTS) && GivenOnly(y, PartnerGone))
    || ((y.None? || y.value in OWN_FAULTS) && GivenOnly(x, PartnerGone))
    || (GivenOnly(x, Superseded) && GivenOnly(y, Superseded))
    || (GivenOnly(x, Idle) && GivenOnly(y, Idle))
  }

  ghost predicate PairTold(w: World, i: Id, j: Id)
    requires i in w.peers && j in w.peers
  {
    Accounted(LastWord(w.peers[i].socket.wire), LastWord(w.peers[j].socket.wire))
  }

  ghost predicate LoneTold(p: Peer) {
    var x := LastWord(p.socket.wire);
    x.Some? ==> LoneCause(p.token.Some?, x.value)
  }

  /** Every session this event closed was told why, truthfully. */
  ghost predicate EndsTruly(w: World, w': World)
    requires w.peers.Keys == w'.peers.Keys
  {
    && (forall i, j {:trigger Mates(w, i, j)} ::
          Mates(w, i, j) && !w.peers[i].state.Closed? && w'.peers[i].state.Closed? ==> PairTold(w', i, j))
    && (forall i {:trigger LoneTold(w'.peers[i])} ::
          i in w.peers && w.peers[i].sessionId.None? && !w.peers[i].state.Closed? && w'.peers[i].state.Closed? ==>
          LoneTold(w'.peers[i]))
  }

  /** An event, or a part of one, that pairs nobody and splices nothing. */
  ghost predicate Honest(w: World, w': World) {
    AllFollow(w, w') && EndsTruly(w, w')
  }

  lemma HonestIsTransitive(w: World, w1: World, w2: World)
    requires Inv(w) && Inv(w1) && Honest(w, w1) && Honest(w1, w2)
    ensures Honest(w, w2)
  {
    forall k | k in w.peers
      ensures Follows(w.peers[k], w2.peers[k])
    {
      assert Follows(w.peers[k], w1.peers[k]);
      assert Follows(w1.peers[k], w2.peers[k]);
    }
    forall i, j | Mates(w, i, j) && !w.peers[i].state.Closed? && w2.peers[i].state.Closed?
      ensures PairTold(w2, i, j)
    {
      assert Follows(w.peers[i], w1.peers[i]) && Follows(w.peers[j], w1.peers[j]);
      assert Mates(w1, i, j) && MatesAgree(w1, i, j);
      assert Mates(w1, j, i) && MatesAgree(w1, j, i);
      assert Follows(w1.peers[i], w2.peers[i]) && Follows(w1.peers[j], w2.peers[j]);
      assert PairTold(w1, i, j) || !w1.peers[i].state.Closed?;
    }
    forall i | i in w.peers && w.peers[i].sessionId.None? && !w.peers[i].state.Closed? && w2.peers[i].state.Closed?
      ensures LoneTold(w2.peers[i])
    {
      assert Follows(w.peers[i], w1.peers[i]) && Follows(w1.peers[i], w2.peers[i]);
      assert LoneTold(w1.peers[i]) || !w1.peers[i].state.Closed?;
    }
  }

  /** One session changing without ending ends nobody. */
  lemma OneLives(w: World, i: Id, q: Peer)
    requires i in w.peers && Follows(w.peers[i], q) && (q.state.Closed? ==> w.peers[i].state.Closed?)
    ensures Honest(w, With(w, i, q))
  {
  }

  // ---------------------------------------------------------------- one session at a time

  ghost predicate LivePhase(wire: seq<Wire>) {
    PhaseOf(wire).Silent? || PhaseOf(wire).Told? || PhaseOf(wire).Talking?
  }

  lemma HungUpEnds(s: Socket, code: CloseCode)
    ensures HungUp(s, code).wire == s.wire + if s.open then [Text(ClosingFrame(code)), Close(code)] else [Terminate]
    ensures Content(HungUp(s, code).wire) == Content(s.wire) && !HungUp(s, code).open
    ensures LivePhase(s.wire) ==> PhaseOf(HungUp(s, code).wire) == Over
  {
    if s.open {
      PutOne(s, Text(ClosingFrame(code)));
      PutOne(Put(s, Text(ClosingFrame(code))), Close(code));
    } else {
      PutOne(s, Terminate);
    }
  }

  lemma EndedFollows(p: Peer, code: CloseCode)
    ensures Follows(p, Ended(p, code))
    ensures !p.state.Closed? ==>
              Ended(p, code).socket.wire ==
              p.socket.wire + if p.socket.open then [Text(ClosingFrame(code)), Close(code)] else [Terminate]
  {
    if !p.state.Closed? {
      HungUpEnds(p.socket, code);
      assert WireOk(p) ==> LivePhase(p.socket.wire);
    }
  }

  lemma EndedIsTold(p: Peer, code: CloseCode)
    requires !p.state.Closed?
    ensures Follows(p, Ended(p, code)) && Retired(p, Ended(p, code))
    ensures GivenOnly(LastWord(Ended(p, code).socket.wire), code)
  {
    EndedFollows(p, code);
  }

  /** A session that is still live has been given no close yet. */
  lemma LiveHasNoLastWord(p: Peer)
    requires WireOk(p) && !p.state.Closed?
    ensures LastWord(p.socket.wire) == None
  {
  }

  lemma CutOffFollows(p: Peer)
    requires !p.state.Closed?
    ensures Follows(p, CutOff(p)) && LastWord(CutOff(p).socket.wire) == None
  {
    PutOne(p.socket, Terminate);
  }

  lemma ParkingFollows(p: Peer, t: Token, ref: nat)
    requires p.state.Greeting? && p.sessionId.None?
    ensures Follows(p, Parking(p, t, ref))
  {
    PutOne(p.socket, Text(WaitingFrame));
  }

  lemma PairingKeepsWire(p: Peer, session: nat, initiator: bool, now: int)
    requires p.state.Greeting? || p.state.Waiting?
    ensures var q := MarkedPaired(p, session, initiator, now);
            Content(q.socket.wire) == Content(p.socket.wire) && q.socket.open == p.socket.open && (WireOk(p) ==> WireOk(q))
  {
    PutOne(p.socket, Text(PairedFrame(session, initiator)));
  }

  /** A session's own verdict on a text frame changes its budgets, and puts a pong on its socket at most. */
  lemma VerdictIsQuiet(cfg: Config, p: Peer, text: TextFrame, now: int)
    ensures var q := TextVerdict(cfg, p, text, now).1;
            Quiet(p, q) && q.socket == if TextVerdict(cfg, p, text, now).0.Allow? then Put(p.socket, Text(PongFrame)) else p.socket
  {
  }

  lemma PongFollows(p: Peer, q: Peer)
    requires !p.state.Closed? && Quiet(p, q) && (q.socket == p.socket || q.socket == Put(p.socket, Text(PongFrame)))
    ensures Follows(p, q)
  {
    PutOne(p.socket, Text(PongFrame));
  }

  lemma VerdictFollows(cfg: Config, p: Peer, text: TextFrame, now: int)
    requires !p.state.Closed?
    ensures Follows(p, TextVerdict(cfg, p, text, now).1)
  {
    VerdictIsQuiet(cfg, p, text, now);
    PongFollows(p, TextVerdict(cfg, p, text, now).1);
  }

  lemma PingFollows(p: Peer, now: int)
    requires p.socket.open
    ensures Follows(p, p.(awaitingPong := true, lastPingAt := now, socket := Put(p.socket, Ping)))
          || p.state.Closed?
  {
    PutOne(p.socket, Ping);
  }

  // ---------------------------------------------------------------- every session at once

  /** A session never paired is told its own fault; a paired one is, and its partner that it was left. */
  lemma ReleaseIsHonest(w: World, i: Id, q: Peer)
    requires Inv(w) && i in w.peers && !w.peers[i].state.Closed? && Retired(w.peers[i], q) && Follows(w.peers[i], q)
    requires var x := LastWord(q.socket.wire);
             x.Some? ==> if w.peers[i].state.Paired? then x.value in OWN_FAULTS else LoneCause(w.peers[i].state.Waiting?, x.value)
    ensures Honest(w, AfterRelease(With(w, i, q), i))
  {
    assert SessionAgrees(w, i);
    if w.peers[i].state.Paired? {
      ReleaseOfPairIsHonest(w, i, q);
    } else {
      ReleaseAlone(w, i, q);
      var w' := AfterRelease(With(w, i, q), i);
      assert w'.peers == w.peers[i := q];
    }
  }

  lemma ReleaseOfPairIsHonest(w: World, i: Id, q: Peer)
    requires Inv(w) && i in w.peers && w.peers[i].state.Paired? && Retired(w.peers[i], q) && Follows(w.peers[i], q)
    requires var x := LastWord(q.socket.wire); x.Some? ==> x.value in OWN_FAULTS
    ensures Honest(w, AfterRelease(With(w, i, q), i))
  {
    ReleasePaired(w, i, q);
    PartnersAreMates(w, i);
    var j := w.partners[i];
    EndedIsTold(w.peers[j], PartnerGone);
    var w' := AfterRelease(With(w, i, q), i);
    assert w'.peers == w.peers[i := q][j := Ended(w.peers[j], PartnerGone)];
    PairEndsTruly(w, w', i, j);
  }

  /** When exactly the two halves of one pair changed, and were accounted for, nobody was misled. */
  lemma PairEndsTruly(w: World, w': World, i: Id, j: Id)
    requires Inv(w) && Mates(w, i, j) && w'.peers.Keys == w.peers.Keys
    requires forall k :: k in w.peers && k != i && k != j ==> w'.peers[k] == w.peers[k]
    requires Follows(w.peers[i], w'.peers[i]) && Follows(w.peers[j], w'.peers[j])
    requires Accounted(LastWord(w'.peers[i].socket.wire), LastWord(w'.peers[j].socket.wire))
    ensures Honest(w, w')
  {
    forall k, l | Mates(w, k, l) && !w.peers[k].state.Closed? && w'.peers[k].state.Closed?
      ensures PairTold(w', k, l)
    {
      assert Mates(w, j, i);
      assert (k == i && l == j) || (k == j && l == i);
    }
  }

  lemma CloseIsHonest(w: World, i: Id, code: CloseCode)
    requires Inv(w) && i in w.peers
    requires if w.peers[i].state.Paired? then code in OWN_FAULTS else LoneCause(w.peers[i].state.Waiting?, code)
    ensures Honest(w, AfterClose(w, i, code))
  {
    if !w.peers[i].state.Closed? {
      EndedIsTold(w.peers[i], code);
      ReleaseIsHonest(w, i, Ended(w.peers[i], code));
    }
  }

  /** Both halves of one session are ended alike, and nobody else is. */
  lemma EndSessionIsHonest(w: World, t: Token, code: CloseCode)
    requires Inv(w) && t in w.entries && w.entries[t].Spliced? && (code == Superseded || code == Idle)
    ensures Honest(w, AfterEndSession(w, t, code))
  {
    var e := w.entries[t];
    var w' := AfterEndSession(w, t, code);
    HoldersCarryToken(w, t, e.first);
    PartnersAreMates(w, e.first);
    EndedIsTold(w.peers[e.first], code);
    EndedIsTold(w.peers[e.second], code);
    PairEndsTruly(w, w', e.first, e.second);
  }

  /** A hello that makes a pair: two sessions that had none are given one fresh session id. */
  ghost predicate PairsUp(w: World, w': World, i: Id, j: Id) {
    && w'.peers.Keys == w.peers.Keys && i in w.peers && j in w.peers && i != j
    && (forall k :: k in w.peers && k != i && k != j ==> w'.peers[k] == w.peers[k])
    && PairedNow(w, w.peers[i], w'.peers[i]) && PairedNow(w, w.peers[j], w'.peers[j])
  }

  ghost predicate PairedNow(w: World, p: Peer, q: Peer) {
    && !p.state.Closed? && p.sessionId.None? && q.state.Paired? && q.sessionId == Some(w.minted)
    && Content(q.socket.wire) == Content(p.socket.wire) && q.socket.open == p.socket.open && (WireOk(p) ==> WireOk(q))
  }

  lemma HelloEffect(w: World, i: Id, text: TextFrame, now: int)
    requires Inv(w) && i in w.peers && w.peers[i].state.Greeting?
    ensures var w' := AfterHello(w, i, text, now);
            if MakesPair(w, i, text) then PairsUp(w, w', i, w.entries[text.token].peer) else Honest(w, w')
  {
    assert SessionAgrees(w, i);
    if !text.HelloText? {
      CloseIsHonest(w, i, BadHello);
    } else if text.token !in w.entries {
      HelloParks(w, i, text, now);
      ParkingFollows(w.peers[i], text.token, w.minted);
      OneLives(w, i, Parking(w.peers[i], text.token, w.minted));
    } else if w.entries[text.token].Parked? {
      HelloPairsUp(w, i, text, now);
    } else {
      HelloSupersedesHonestly(w, i, text, now);
    }
  }

  lemma HelloPairsUp(w: World, i: Id, text: TextFrame, now: int)
    requires Inv(w) && i in w.peers && w.peers[i].state.Greeting?
    requires text.HelloText? && text.token in w.entries && w.entries[text.token].Parked?
    ensures PairsUp(w, AfterHello(w, i, text, now), i, w.entries[text.token].peer)
  {
    HelloPairs(w, i, text, now);
    var t := text.token;
    var j := w.entries[t].peer;
    assert SessionAgrees(w, i) && SessionAgrees(w, j);
    PairingKeepsWire(w.peers[j], w.minted, false, now);
    PairingKeepsWire(w.peers[i].(token := Some(t)), w.minted, true, now);
  }

  lemma HelloSupersedesHonestly(w: World, i: Id, text: TextFrame, now: int)
    requires Inv(w) && i in w.peers && w.peers[i].state.Greeting?
    requires text.HelloText? && text.token in w.entries && w.entries[text.token].Spliced?
    ensures Honest(w, AfterHello(w, i, text, now))
  {
    HelloSupersedes(w, i, text, now);
    var t := text.token;
    var w1 := AfterEndSession(w, t, Superseded);
    EndSessionIsHonest(w, t, Superseded);
    EndSessionEndsTogether(w, t, Superseded);
    EndingTogetherKeepsInv(w, w1, {w.entries[t].first, w.entries[t].second}, {t});
    assert w1.peers[i] == w.peers[i];
    assert SessionAgrees(w, i);
    ParkingFollows(w.peers[i], t, w.minted);
    OneLives(w1, i, Parking(w.peers[i], t, w.minted));
    HonestIsTransitive(w, w1, AfterHello(w, i, text, now));
  }

  lemma JudgedIsHonest(w: World, i: Id, verdict: (Verdict, Peer))
    requires Inv(w) && i in w.peers && Quiet(w.peers[i], verdict.1) && Follows(w.peers[i], verdict.1)
    requires verdict.0.Refuse? ==>
               if w.peers[i].state.Paired? then verdict.0.code in OWN_FAULTS else LoneCause(w.peers[i].state.Waiting?, verdict.0.code)
    ensures Honest(w, AfterVerdict(w, i, verdict))
  {
    var w1 := With(w, i, verdict.1);
    OneLives(w, i, verdict.1);
    QuietKeepsInv(w, i, verdict.1);
    if verdict.0.Refuse? {
      CloseIsHonest(w1, i, verdict.0.code);
      HonestIsTransitive(w, w1, AfterVerdict(w, i, verdict));
    }
  }

  predicate MakesPair(w: World, i: Id, text: TextFrame)
    requires i in w.peers
  {
    w.peers[i].state.Greeting? && text.HelloText? && text.token in w.entries && w.entries[text.token].Parked?
  }

  lemma TextEffect(cfg: Config, w: World, i: Id, text: TextFrame, now: int)
    requires Inv(w) && i in w.peers
    ensures var w' := AfterText(cfg, w, i, text, now);
            if MakesPair(w, i, text) then PairsUp(w, w', i, w.entries[text.token].peer) else Honest(w, w')
  {
    if !w.peers[i].state.Closed? {
      var p := w.peers[i].(lastHeardAt := now);
      if p.state.Greeting? {
        GreetingTextEffect(w, i, p, text, now);
      } else {
        VerdictFollows(cfg, p, text, now);
        JudgedIsHonest(w, i, TextVerdict(cfg, p, text, now));
      }
    }
  }

  lemma GreetingTextEffect(w: World, i: Id, p: Peer, text: TextFrame, now: int)
    requires Inv(w) && i in w.peers && w.peers[i].state.Greeting? && p == w.peers[i].(lastHeardAt := now)
    ensures var w' := AfterHello(With(w, i, p), i, text, now);
            if MakesPair(w, i, text) then PairsUp(w, w', i, w.entries[text.token].peer) else Honest(w, w')
  {
    QuietKeepsInv(w, i, p);
    HelloEffect(With(w, i, p), i, text, now);
    if !MakesPair(w, i, text) {
      OneLives(w, i, p);
      HonestIsTransitive(w, With(w, i, p), AfterHello(With(w, i, p), i, text, now));
    }
  }

  lemma KeepAliveIsHonest(cfg: Config, w: World, i: Id, now: int)
    requires Inv(w) && i in w.peers && !w.peers[i].state.Closed?
    ensures Honest(w, AfterKeepAlive(cfg, w, i, now))
  {
    var p := w.peers[i];
    if p.awaitingPong {
      if now - p.lastPingAt >= cfg.keepaliveIntervalMs {
        CutOffFollows(p);
        ReleaseIsHonest(w, i, CutOff(p));
      }
    } else if p.socket.open {
      PingFollows(p, now);
      OneLives(w, i, p.(awaitingPong := true, lastPingAt := now, socket := Put(p.socket, Ping)));
    }
  }

  lemma SweepOneIsHonest(cfg: Config, w: World, i: Id, now: int)
    requires Inv(w) && i in w.peers
    ensures Honest(w, AfterSweepOne(cfg, w, i, now))
  {
    var p := w.peers[i];
    if p.state.Closed? {
    } else if GreetingOverdue(cfg, p, now) {
      CloseIsHonest(w, i, BadHello);
    } else if IdleOverdue(cfg, p, now) {
      assert SessionAgrees(w, i);
      EndSessionIsHonest(w, p.token.value, Idle);
    } else {
      KeepAliveIsHonest(cfg, w, i, now);
    }
  }

  lemma ExpiryIsHonest(cfg: Config, w: World, now: int)
    requires Inv(w)
    ensures Honest(w, AfterExpiry(cfg, w, now))
  {
    var w' := AfterExpiry(cfg, w, now);
    ExpiryEndsTogether(cfg, w, now);
    forall k | k in w.peers
      ensures Follows(w.peers[k], w'.peers[k])
    {
      EndedFollows(w.peers[k], PairTimeout);
    }
    forall k | k in w.peers && k in Expired(cfg, w, now)
      ensures w.peers[k].state.Waiting? && w.peers[k].token.Some? && w.peers[k].sessionId.None? && LoneTold(w'.peers[k])
    {
      var t :| t in w.entries && ParkingOverdue(cfg, w.entries[t], now) && w.entries[t].peer == k;
      HoldersCarryToken(w, t, k);
      assert SessionAgrees(w, k);
      EndedFollows(w.peers[k], PairTimeout);
    }
  }

  lemma {:induction false} SweptAllIsHonest(cfg: Config, w: World, order: seq<Id>, now: int)
    requires Inv(w)
    ensures Honest(w, SweptAll(cfg, w, order, now)) && Inv(SweptAll(cfg, w, order, now))
  {
    if order != [] {
      var before := SweptAll(cfg, w, order[..|order| - 1], now);
      var i := order[|order| - 1];
      SweptAllIsHonest(cfg, w, order[..|order| - 1], now);
      if i in before.peers {
        SweepOneIsHonest(cfg, before, i, now);
        SweepOneKeepsInv(cfg, before, i, now);
        HonestIsTransitive(w, before, AfterSweepOne(cfg, before, i, now));
      }
    }
  }

  lemma SweepIsHonest(cfg: Config, w: World, order: seq<Id>, now: int)
    requires Inv(w)
    ensures Honest(w, AfterSweep(cfg, w, order, now))
  {
    ExpiryIsHonest(cfg, w, now);
    ExpiryKeepsInv(cfg, w, now);
    SweptAllIsHonest(cfg, AfterExpiry(cfg, w, now), order, now);
    HonestIsTransitive(w, AfterExpiry(cfg, w, now), AfterSweep(cfg, w, order, now));
  }

  lemma HangupIsHonest(w: World, i: Id)
    requires Inv(w) && i in w.peers && WireOk(w.peers[i])
    ensures Honest(w, AfterSocketClosed(LineDownAt(w, i), i))
  {
    var p := w.peers[i].(socket := w.peers[i].socket.(open := false));
    OneLives(w, i, p);
    QuietKeepsInv(w, i, p);
    if !p.state.Closed? {
      HangupSilently(With(w, i, p), i);
      HonestIsTransitive(w, With(w, i, p), AfterSocketClosed(LineDownAt(w, i), i));
    }
  }

  lemma HangupSilently(w: World, i: Id)
    requires Inv(w) && i in w.peers && !w.peers[i].state.Closed? && !w.peers[i].socket.open && WireOk(w.peers[i])
    ensures Honest(w, AfterSocketClosed(w, i))
  {
    LiveHasNoLastWord(w.peers[i]);
    ReleaseIsHonest(w, i, w.peers[i].(state := Closed));
  }

  // ---------------------------------------------------------------- content

  /** What a splice does: the partner's log grows by exactly the frame, and no other log gains content. */
  ghost predicate SplicedTo(w: World, w': World, j: Id, payload: Payload) {
    && w.peers.Keys == w'.peers.Keys && j in w.peers
    && (forall k :: k in w.peers && k != j ==> Follows(w.peers[k], w'.peers[k]) && Quiet(w.peers[k], w'.peers[k]))
    && Quiet(w.peers[j], w'.peers[j])
    && w.peers[j].socket.open && w'.peers[j].socket.open
    && Content(w'.peers[j].socket.wire) == Content(w.peers[j].socket.wire) + [payload]
    && (WireOk(w.peers[j]) ==> WireOk(w'.peers[j]))
  }

  lemma CarriedIs(w0: World, i: Id, q: Peer, j: Id, payload: Payload, now: int)
    requires i in w0.peers && j in w0.peers && i != j
    ensures Carried(With(w0, i, q), i, j, payload, now)
         == With(With(w0, i, CountedIn(q, now)), j, Delivered(w0.peers[j], payload, now))
  {
    assert Carried(With(w0, i, q), i, j, payload, now).peers
        == w0.peers[i := CountedIn(q, now)][j := Delivered(w0.peers[j], payload, now)];
  }

  lemma OpenPartnerHears(w0: World, i: Id, q: Peer, j: Id, payload: Payload, now: int)
    requires i in w0.peers && j in w0.peers && i != j && w0.peers[j].state.Paired? && w0.peers[j].socket.open
    requires Quiet(w0.peers[i], q) && q.socket == w0.peers[i].socket
    ensures SplicedTo(w0, With(With(w0, i, q), j, Delivered(w0.peers[j], payload, now)), j, payload)
  {
    PutOne(w0.peers[j].socket, Binary(payload));
  }

  /**
   * A content frame from `i` either reaches its partner whole, or is lost with the session: the sender
   * has been closed, or the partner's socket is no longer open.
   */
  lemma BinaryEffect(cfg: Config, w: World, i: Id, payload: Payload, now: int)
    requires Inv(w) && i in w.peers
    ensures
      var w' := AfterBinary(cfg, w, i, payload, now);
      if i in w.partners && SplicedTo(w, w', w.partners[i], payload) then w.peers[i].state.Paired?
      else Honest(w, w') &&
           (w.peers[i].state.Paired? ==>
              i in w.partners && w.partners[i] in w'.peers && i in w'.peers &&
              (w'.peers[i].state.Closed? || !w'.peers[w.partners[i]].socket.open))
  {
    var p := w.peers[i].(lastHeardAt := now);
    var (verdict, q) := BinaryVerdict(cfg, p, |payload|, now);
    assert SessionAgrees(w, i);
    if !w.peers[i].state.Closed? {
      assert Quiet(p, q) && q.socket == p.socket;
      QuietKeepsInv(w, i, q);
      if verdict.Refuse? {
        JudgedIsHonest(w, i, (verdict, q));
        CloseEndsTogether(With(w, i, q), i, verdict.code);
        if w.peers[i].state.Paired? {
          PartnersAreMates(w, i);
        }
      } else {
        SpliceEffect(cfg, w, i, q, payload, now);
      }
    }
  }

  lemma SpliceEffect(cfg: Config, w0: World, i: Id, q: Peer, payload: Payload, now: int)
    requires Inv(w0) && i in w0.peers && w0.peers[i].state.Paired? && Quiet(w0.peers[i], q) && q.socket == w0.peers[i].socket
    ensures
      var w' := AfterSplice(cfg, With(w0, i, q), i, payload, now);
      i in w0.partners && w0.partners[i] in w'.peers && i in w'.peers &&
      (SplicedTo(w0, w', w0.partners[i], payload) ||
       (Honest(w0, w') && (w'.peers[i].state.Closed? || !w'.peers[w0.partners[i]].socket.open)))
  {
    var w := With(w0, i, q);
    QuietKeepsInv(w0, i, q);
    assert SessionAgrees(w0, i);
    PartnersAreMates(w, i);
    var j := w.partners[i];
    OneLives(w0, i, q);
    if w.peers[j].socket.backlog > cfg.maxBufferedBytes {
      SlowPartnerEffect(w0, i, q, j);
    } else {
      CarriedEffect(w0, i, q, j, payload, now);
    }
  }

  lemma CarriedEffect(w0: World, i: Id, q: Peer, j: Id, payload: Payload, now: int)
    requires Inv(w0) && i in w0.partners && w0.partners[i] == j && i in w0.peers && Quiet(w0.peers[i], q)
    requires q.socket == w0.peers[i].socket && Honest(w0, With(w0, i, q)) && j in w0.peers && i != j && w0.peers[j].state.Paired?
    ensures var w' := Carried(With(w0, i, q), i, j, payload, now);
            i in w'.peers && j in w'.peers &&
            (SplicedTo(w0, w', j, payload) || (Honest(w0, w') && !w'.peers[j].socket.open))
  {
    CarriedIs(w0, i, q, j, payload, now);
    var counted := CountedIn(q, now);
    if w0.peers[j].socket.open {
      OpenPartnerHears(w0, i, counted, j, payload, now);
    } else {
      OneLives(w0, i, counted);
      assert w0.peers[i := counted][j := w0.peers[j]] == w0.peers[i := counted];
    }
  }

  lemma SlowPartnerEffect(w0: World, i: Id, q: Peer, j: Id)
    requires Inv(w0) && i in w0.partners && w0.partners[i] == j && i in w0.peers && Quiet(w0.peers[i], q)
    requires Honest(w0, With(w0, i, q)) && j in w0.peers
    ensures var w' := AfterClose(With(w0, i, q), j, SlowConsumer);
            Honest(w0, w') && i in w'.peers && j in w'.peers && w'.peers[i].state.Closed?
  {
    var w := With(w0, i, q);
    QuietKeepsInv(w0, i, q);
    PartnersAreMates(w, i);
    CloseIsHonest(w, j, SlowConsumer);
    CloseEndsTogether(w, j, SlowConsumer);
    HonestIsTransitive(w0, w, AfterClose(w, j, SlowConsumer));
  }
}
