/**
 * What a peer is told about its pairing, over every run, read off its socket: a peer that has to wait hears so, both
 * halves of a pair hear of it at the later of their two hellos, and the one whose hello that was is told to initiate.
 */
module RelayPairing {
  import opened Wrappers
  import opened RateLimit
  import opened RelayModel
  import opened RelayInvariant
  import opened RelayRun
  import opened RelayHistory
  import opened RelayTheorems
  import opened RelayAnswers

  /** Everything a socket was told about pairing, in order. */
  function News(wire: seq<Wire>): seq<Control> {
    if wire == [] then []
    else
      var last := wire[|wire| - 1];
      News(wire[..|wire| - 1]) +
      (if last.Text? && (last.frame.WaitingFrame? || last.frame.PairedFrame?) then [last.frame] else [])
  }

  /** The world when the first `n` events are over. */
  function At(cfg: Config, es: seq<Event>, n: nat): World
    requires n <= |es|
  {
    Run(cfg, es[..n]).world
  }

  predicate SaysHello(cfg: Config, es: seq<Event>, n: nat, i: Id)
    requires n < |es|
  {
    var w := At(cfg, es, n);
    es[n].TextIn? && es[n].i == i && es[n].text.HelloText? && i in w.peers && w.peers[i].state.Greeting?
  }

  /** Which of the first `n` events was the hello of `i`. */
  function HelloAt(cfg: Config, es: seq<Event>, n: nat, i: Id): Option<nat>
    requires n <= |es|
  {
    if n == 0 then None
    else if HelloAt(cfg, es, n - 1, i).Some? then HelloAt(cfg, es, n - 1, i)
    else if SaysHello(cfg, es, n - 1, i) then Some(n - 1)
    else None
  }

  /** The socket of `i` was open when event `n` came. */
  predicate OpenAt(cfg: Config, es: seq<Event>, n: nat, i: Id) {
    n <= |es| && i in At(cfg, es, n).peers && At(cfg, es, n).peers[i].socket.open
  }

  function Max(m: nat, n: nat): nat {
    if m > n then m else n
  }

  // ---------------------------------------------------------------- who is told nothing

  /** No news, and no other change but an ending. */
  ghost predicate SameNews(p: Peer, q: Peer) {
    && q.sessionId == p.sessionId && (q.state == p.state || q.state.Closed?)
    && News(q.socket.wire) == News(p.socket.wire)
  }

  ghost predicate NoNews(w: World, w': World) {
    w'.peers.Keys == w.peers.Keys && forall k :: k in w.peers ==> SameNews(w.peers[k], w'.peers[k])
  }

  lemma NewsOfPut(s: Socket, item: Wire)
    ensures News(Put(s, item).wire)
         == News(s.wire) + if item.Text? && (item.frame.WaitingFrame? || item.frame.PairedFrame?) then [item.frame] else []
  {
    assert (s.wire + [item])[..|s.wire|] == s.wire;
  }

  lemma EndedIsNoNews(p: Peer, code: CloseCode)
    ensures SameNews(p, Ended(p, code))
  {
    NewsOfPut(p.socket, Text(ClosingFrame(code)));
    NewsOfPut(Put(p.socket, Text(ClosingFrame(code))), Close(code));
    NewsOfPut(p.socket, Terminate);
  }

  lemma ReleasingIsNoNews(w: World, i: Id, q: Peer)
    requires Inv(w) && i in w.peers && !w.peers[i].state.Closed? && Retired(w.peers[i], q) && SameNews(w.peers[i], q)
    ensures NoNews(w, AfterRelease(With(w, i, q), i))
  {
    ReleaseEndsTogether(w, i, q);
    if w.peers[i].state.Paired? {
      EndedIsNoNews(w.peers[w.partners[i]], PartnerGone);
    }
  }

  lemma ClosingIsNoNews(w: World, i: Id, code: CloseCode)
    requires Inv(w) && i in w.peers
    ensures NoNews(w, AfterClose(w, i, code))
  {
    if !w.peers[i].state.Closed? {
      EndedIsNoNews(w.peers[i], code);
      ReleasingIsNoNews(w, i, Ended(w.peers[i], code));
    }
  }

  lemma EndingIsNoNews(w: World, t: Token, code: CloseCode)
    requires Inv(w) && t in w.entries && w.entries[t].Spliced?
    ensures NoNews(w, AfterEndSession(w, t, code))
  {
    var e := w.entries[t];
    PairGoesWhole(w, t);
    EndedIsNoNews(w.peers[e.first], code);
    EndedIsNoNews(w.peers[e.second], code);
  }

  lemma PutIsNoNews(w: World, i: Id, q: Peer)
    requires i in w.peers && SameNews(w.peers[i], q)
    ensures NoNews(w, With(w, i, q))
  {
  }

  lemma NoNewsThen(w: World, w1: World, w2: World)
    requires NoNews(w, w1) && NoNews(w1, w2)
    ensures NoNews(w, w2)
  {
  }

  lemma JudgingIsNoNews(w: World, i: Id, verdict: (Verdict, Peer))
    requires Inv(w) && i in w.peers && Quiet(w.peers[i], verdict.1) && SameNews(w.peers[i], verdict.1)
    ensures NoNews(w, AfterVerdict(w, i, verdict))
  {
    var w1 := With(w, i, verdict.1);
    QuietKeepsInv(w, i, verdict.1);
    if verdict.0.Refuse? {
      ClosingIsNoNews(w1, i, verdict.0.code);
      NoNewsThen(w, w1, AfterVerdict(w, i, verdict));
    }
  }

  lemma LaterTextIsNoNews(cfg: Config, w: World, i: Id, text: TextFrame, at: int)
    requires Inv(w) && i in w.peers && !w.peers[i].state.Greeting?
    ensures NoNews(w, AfterText(cfg, w, i, text, at))
  {
    if !w.peers[i].state.Closed? {
      var p := w.peers[i].(lastHeardAt := at);
      VerdictIsQuiet(cfg, p, text, at);
      NewsOfPut(p.socket, Text(PongFrame));
      JudgingIsNoNews(w, i, TextVerdict(cfg, p, text, at));
    }
  }

  lemma SplicingIsNoNews(cfg: Config, w: World, i: Id, payload: Payload, at: int)
    requires Inv(w) && i in w.peers && w.peers[i].state.Paired?
    ensures NoNews(w, AfterSplice(cfg, w, i, payload, at))
  {
    assert SessionAgrees(w, i);
    PartnersAreMates(w, i);
    var j := w.partners[i];
    if w.peers[j].socket.backlog > cfg.maxBufferedBytes {
      ClosingIsNoNews(w, j, SlowConsumer);
    } else {
      NewsOfPut(w.peers[j].socket, Binary(payload));
    }
  }

  lemma BinaryIsNoNews(cfg: Config, w: World, i: Id, payload: Payload, at: int)
    requires Inv(w) && i in w.peers
    ensures NoNews(w, AfterBinary(cfg, w, i, payload, at))
  {
    if !w.peers[i].state.Closed? {
      var p := w.peers[i].(lastHeardAt := at);
      var (verdict, q) := BinaryVerdict(cfg, p, |payload|, at);
      BinaryVerdictIs(cfg, p, |payload|, at);
      if verdict.Refuse? {
        JudgingIsNoNews(w, i, (verdict, q));
      } else {
        QuietKeepsInv(w, i, q);
        SplicingIsNoNews(cfg, With(w, i, q), i, payload, at);
        NoNewsThen(w, With(w, i, q), AfterBinary(cfg, w, i, payload, at));
      }
    }
  }

  lemma SweepOneIsNoNews(cfg: Config, w: World, i: Id, now: int)
    requires Inv(w) && i in w.peers
    ensures NoNews(w, AfterSweepOne(cfg, w, i, now))
  {
    var p := w.peers[i];
    if p.state.Closed? {
    } else if GreetingOverdue(cfg, p, now) {
      ClosingIsNoNews(w, i, BadHello);
    } else if IdleOverdue(cfg, p, now) {
      assert SessionAgrees(w, i);
      EndingIsNoNews(w, p.token.value, Idle);
    } else if cfg.pings && now - p.lastHeardAt >= cfg.keepaliveIntervalMs {
      KeepingAliveIsNoNews(cfg, w, i, now);
    }
  }

  lemma KeepingAliveIsNoNews(cfg: Config, w: World, i: Id, now: int)
    requires Inv(w) && i in w.peers && !w.peers[i].state.Closed?
    ensures NoNews(w, AfterKeepAlive(cfg, w, i, now))
  {
    var p := w.peers[i];
    NewsOfPut(p.socket, Terminate);
    NewsOfPut(p.socket, Ping);
    if p.awaitingPong && now - p.lastPingAt >= cfg.keepaliveIntervalMs {
      ReleasingIsNoNews(w, i, CutOff(p));
    }
  }

  lemma {:induction false} SweepIsNoNews(cfg: Config, w: World, order: seq<Id>, now: int)
    requires Inv(w)
    ensures NoNews(w, SweptAll(cfg, w, order, now))
  {
    if order != [] {
      var front, i := order[..|order| - 1], order[|order| - 1];
      var before := SweptAll(cfg, w, front, now);
      SweepIsNoNews(cfg, w, front, now);
      SweptAllKeepsInv(cfg, w, front, now);
      if i in before.peers {
        SweepOneIsNoNews(cfg, before, i, now);
        NoNewsThen(w, before, AfterSweepOne(cfg, before, i, now));
      }
    }
  }

  lemma ExpiryIsNoNews(cfg: Config, w: World, now: int)
    ensures NoNews(w, AfterExpiry(cfg, w, now))
  {
    forall k | k in w.peers
      ensures SameNews(w.peers[k], AfterExpiry(cfg, w, now).peers[k])
    {
      EndedIsNoNews(w.peers[k], PairTimeout);
    }
  }

  lemma ShutdownIsNoNews(w: World, order: seq<Id>)
    ensures NoNews(w, AfterShutdown(w, order))
  {
    forall k | k in w.peers
      ensures SameNews(w.peers[k], AfterShutdown(w, order).peers[k])
    {
      EndedIsNoNews(w.peers[k], GoingAway);
    }
  }

  lemma HangupIsNoNews(w: World, i: Id)
    requires Inv(w) && i in w.peers
    ensures NoNews(w, AfterSocketClosed(LineDownAt(w, i), i))
  {
    var w1 := LineDownAt(w, i);
    QuietKeepsInv(w, i, w1.peers[i]);
    if !w.peers[i].state.Closed? {
      ReleasingIsNoNews(w1, i, w1.peers[i].(state := Closed));
      NoNewsThen(w, w1, AfterSocketClosed(w1, i));
    }
  }

  /** The event is somebody's first text frame. */
  predicate Greets(w: World, e: Event) {
    e.TextIn? && e.i in w.peers && w.peers[e.i].state.Greeting?
  }

  /** Only a hello tells anybody anything about pairing. */
  lemma OnlyHellosAreNews(cfg: Config, r: Relay, e: Event)
    requires Inv(r.world) && !e.Connect? && !(Greets(r.world, e) && e.text.HelloText?)
    ensures NoNews(r.world, WorldAfter(cfg, r, e))
  {
    var w := r.world;
    match e
    case TextIn(i, text, at) =>
      if i in w.peers {
        if w.peers[i].state.Greeting? {
          QuietKeepsInv(w, i, w.peers[i].(lastHeardAt := at));
          ClosingIsNoNews(With(w, i, w.peers[i].(lastHeardAt := at)), i, BadHello);
        } else {
          LaterTextIsNoNews(cfg, w, i, text, at);
        }
      }
    case BinaryIn(i, payload, at) =>
      if i in w.peers {
        BinaryIsNoNews(cfg, w, i, payload, at);
      }
    case Hangup(i) =>
      if i in w.peers {
        HangupIsNoNews(w, i);
      }
    case SweepAt(at) =>
      ExpiryIsNoNews(cfg, w, at);
      ExpiryKeepsInv(cfg, w, at);
      SweepIsNoNews(cfg, AfterExpiry(cfg, w, at), r.connections, at);
    case Shutdown =>
      ShutdownIsNoNews(w, r.connections);
    case _ =>
  }

  // ---------------------------------------------------------------- who is told what

  /** A hello that finds nobody waiting: whoever says it waits, and hears so. */
  ghost predicate StartsWaiting(w: World, w': World, i: Id) {
    && w'.peers.Keys == w.peers.Keys && i in w.peers
    && (forall k :: k in w.peers && k != i ==> SameNews(w.peers[k], w'.peers[k]))
    && w'.peers[i].state.Waiting? && w'.peers[i].sessionId.None? && w.peers[i].sessionId.None?
    && News(w'.peers[i].socket.wire) == News(w.peers[i].socket.wire) + if w.peers[i].socket.open then [WaitingFrame] else []
  }

  ghost predicate ToldPaired(p: Peer, q: Peer, session: nat, initiator: bool) {
    && q.state.Paired? && q.sessionId == Some(session)
    && News(q.socket.wire) == News(p.socket.wire) + if p.socket.open then [PairedFrame(session, initiator)] else []
  }

  /** A hello that finds `j` waiting: both are paired, and `i`, who said it, is to initiate. */
  ghost predicate PairedWith(w: World, w': World, i: Id, j: Id) {
    && PairsUp(w, w', i, j) && w.peers[j].state.Waiting?
    && ToldPaired(w.peers[i], w'.peers[i], w.minted, true)
    && ToldPaired(w.peers[j], w'.peers[j], w.minted, false)
  }

  lemma HelloIsNews(w: World, i: Id, t: Token, bytes: nat, at: int)
    requires Inv(w) && i in w.peers && w.peers[i].state.Greeting?
    ensures var w' := AfterHello(w, i, HelloText(t, bytes), at);
            if t in w.entries && w.entries[t].Parked? then PairedWith(w, w', i, w.entries[t].peer)
            else StartsWaiting(w, w', i)
  {
    var text := HelloText(t, bytes);
    assert SessionAgrees(w, i);
    if t !in w.entries {
      HelloParks(w, i, text, at);
      ParkingIsNews(w, w, i, t, w.minted, at);
    } else if w.entries[t].Parked? {
      PairingIsNews(w, i, t, bytes, at);
    } else {
      SupersedingIsNews(w, i, t, bytes, at);
    }
  }

  lemma PairingIsNews(w: World, i: Id, t: Token, bytes: nat, at: int)
    requires Inv(w) && i in w.peers && w.peers[i].state.Greeting? && t in w.entries && w.entries[t].Parked?
    ensures PairedWith(w, AfterHello(w, i, HelloText(t, bytes), at), i, w.entries[t].peer)
  {
    HelloPairsUp(w, i, HelloText(t, bytes), at);
    HelloPairs(w, i, HelloText(t, bytes), at);
    NewsOfPut(w.peers[i].socket, Text(PairedFrame(w.minted, true)));
    NewsOfPut(w.peers[w.entries[t].peer].socket, Text(PairedFrame(w.minted, false)));
  }

  lemma SupersedingIsNews(w: World, i: Id, t: Token, bytes: nat, at: int)
    requires Inv(w) && i in w.peers && w.peers[i].state.Greeting? && t in w.entries && w.entries[t].Spliced?
    ensures StartsWaiting(w, AfterHello(w, i, HelloText(t, bytes), at), i)
  {
    var w1 := AfterEndSession(w, t, Superseded);
    assert SessionAgrees(w, i);
    HelloSupersedes(w, i, HelloText(t, bytes), at);
    EndingIsNoNews(w, t, Superseded);
    EndSessionEndsTogether(w, t, Superseded);
    ParkingIsNews(w, w1, i, t, w.minted, at);
  }

  /** Parking one session, after a change that was no news to anybody and nothing to it. */
  lemma ParkingIsNews(w: World, w1: World, i: Id, t: Token, ref: nat, at: int)
    requires NoNews(w, w1) && i in w.peers && w1.peers[i] == w.peers[i] && w.peers[i].sessionId.None?
    ensures StartsWaiting(w, ParkedIn(w1, i, Parking(w.peers[i], t, ref), t, at), i)
  {
    NewsOfPut(w.peers[i].socket, Text(WaitingFrame));
  }

  // ---------------------------------------------------------------- the answer to a hello

  ghost predicate OtherRowsStay(w: World, w': World, t: Token) {
    forall s :: s != t ==> (s in w'.entries <==> s in w.entries) && (s in w.entries ==> w'.entries[s] == w.entries[s])
  }

  /** `i` is alone under the token from now on, and hears that it waits. */
  ghost predicate Parks(w: World, w': World, i: Id, t: Token, at: int) {
    && i in w.peers && i in w'.peers && OtherRowsStay(w, w', t)
    && t in w'.entries && w'.entries[t].Parked? && w'.entries[t].peer == i && w'.entries[t].since == at
    && w'.peers[i] == Gaining(w.peers[i], if w.peers[i].socket.open then [Text(WaitingFrame)] else [])
                      .(state := Waiting, token := Some(t), lastHeardAt := at, pairRef := Some(w'.entries[t].pairRef))
  }

  /** What being paired changes about a session, and what its open socket hears of it. */
  function Coupling(p: Peer, session: nat, initiator: bool, at: int): Peer {
    Gaining(p, if p.socket.open then [Text(PairedFrame(session, initiator))] else [])
      .(state := Paired, sessionId := Some(session), lastSpliceAt := at)
  }

  /** `j` waited under the token and `i` arrived: one session, its id new, told to both. */
  ghost predicate Pairs(w: World, w': World, i: Id, j: Id, t: Token, at: int) {
    && i in w.peers && j in w.peers && i != j && OthersUntouched(w, w', {i, j}) && OtherRowsStay(w, w', t)
    && t in w'.entries && w'.entries[t].Spliced? && w'.entries[t].first == j && w'.entries[t].second == i
    && w'.partners == w.partners[i := j][j := i]
    && var s := w'.entries[t].sessionId;
      && (forall k :: k in w.peers ==> w.peers[k].sessionId != Some(s))
      && w'.peers[i] == Coupling(w.peers[i], s, true, at).(token := Some(t), lastHeardAt := at, pairRef := Some(w'.entries[t].pairRef))
      && w'.peers[j] == Coupling(w.peers[j], s, false, at)
  }

  /** The live session under the token is over, both its halves told the same. */
  ghost predicate Supersedes(w: World, w': World, i: Id, t: Token) {
    && t in w.entries && w.entries[t].Spliced?
    && var a, b := w.entries[t].first, w.entries[t].second;
      && a in w.peers && b in w.peers && a != i && b != i && OthersUntouched(w, w', {i, a, b})
      && SentOff(w.peers[a], w'.peers[a], Superseded) && SentOff(w.peers[b], w'.peers[b], Superseded)
      && w'.partners == w.partners - {a, b}
  }

  ghost predicate HelloAnswered(w: World, w': World, i: Id, t: Token, at: int) {
    if t !in w.entries then Parks(w, w', i, t, at) && OthersUntouched(w, w', {i}) && w'.partners == w.partners
    else if w.entries[t].Parked? then Pairs(w, w', i, w.entries[t].peer, t, at)
    else Parks(w, w', i, t, at) && Supersedes(w, w', i, t)
  }

  lemma SupersedingEnds(w: World, t: Token)
    requires Inv(w) && t in w.entries && w.entries[t].Spliced?
    ensures var w1, a, b := AfterEndSession(w, t, Superseded), w.entries[t].first, w.entries[t].second;
            && a in w.peers && b in w.peers && OthersUntouched(w, w1, {a, b})
            && SentOff(w.peers[a], w1.peers[a], Superseded) && SentOff(w.peers[b], w1.peers[b], Superseded)
            && w1.partners == w.partners - {a, b} && w1.entries == w.entries - {t}
  {
    var e := w.entries[t];
    EndSessionEndsTogether(w, t, Superseded);
    HoldersCarryToken(w, t, e.first);
    HoldersCarryToken(w, t, e.second);
    EndedIsSentOff(w.peers[e.first], Superseded);
    EndedIsSentOff(w.peers[e.second], Superseded);
  }

  lemma SupersedingAnswers(w: World, i: Id, t: Token, bytes: nat, at: int)
    requires Inv(w) && i in w.peers && w.peers[i].state.Greeting? && w.peers[i].lastHeardAt == at
    requires t in w.entries && w.entries[t].Spliced?
    ensures HelloAnswered(w, AfterHello(w, i, HelloText(t, bytes), at), i, t, at)
  {
    HelloSupersedes(w, i, HelloText(t, bytes), at);
    SupersedingEnds(w, t);
    ParkedInSupersedes(w, AfterEndSession(w, t, Superseded), i, t, at);
  }

  lemma ParkedInSupersedes(w: World, w1: World, i: Id, t: Token, at: int)
    requires i in w.peers && w.peers[i].lastHeardAt == at && t in w.entries && w.entries[t].Spliced? && !w.entries[t].Holds(i)
    requires var a, b := w.entries[t].first, w.entries[t].second;
             && a in w.peers && b in w.peers && OthersUntouched(w, w1, {a, b})
             && SentOff(w.peers[a], w1.peers[a], Superseded) && SentOff(w.peers[b], w1.peers[b], Superseded)
             && w1.partners == w.partners - {a, b} && w1.entries == w.entries - {t}
    ensures var w' := ParkedIn(w1, i, Parking(w.peers[i], t, w.minted), t, at);
            w1.minted == w.minted ==> Parks(w, w', i, t, at) && Supersedes(w, w', i, t)
  {
  }

  lemma SplicedInPairs(w: World, i: Id, p: Peer, j: Id, q: Peer, t: Token, ref: nat, at: int)
    requires Inv(w) && i in w.peers && j in w.peers && i != j
    requires p == Coupling(w.peers[i], w.minted, true, at).(token := Some(t), lastHeardAt := at, pairRef := Some(ref))
    requires q == Coupling(w.peers[j], w.minted, false, at)
    ensures Pairs(w, SplicedIn(w, i, p, j, q, t, ref, at), i, j, t, at)
  {
  }

  lemma PairingAnswers(w: World, i: Id, t: Token, bytes: nat, at: int)
    requires Inv(w) && i in w.peers && w.peers[i].state.Greeting? && w.peers[i].lastHeardAt == at
    requires t in w.entries && w.entries[t].Parked?
    ensures Pairs(w, AfterHello(w, i, HelloText(t, bytes), at), i, w.entries[t].peer, t, at)
  {
    var j, ref := w.entries[t].peer, w.entries[t].pairRef;
    HelloPairs(w, i, HelloText(t, bytes), at);
    HoldersCarryToken(w, t, j);
    SplicedInPairs(w, i, Coupling(w.peers[i], w.minted, true, at).(token := Some(t), lastHeardAt := at, pairRef := Some(ref)),
                   j, Coupling(w.peers[j], w.minted, false, at), t, ref, at);
  }

  lemma GreetingIsAnswered(w: World, i: Id, t: Token, bytes: nat, at: int)
    requires Inv(w) && i in w.peers && w.peers[i].state.Greeting? && w.peers[i].lastHeardAt == at
    ensures HelloAnswered(w, AfterHello(w, i, HelloText(t, bytes), at), i, t, at)
  {
    if t !in w.entries {
      HelloParks(w, i, HelloText(t, bytes), at);
    } else if w.entries[t].Parked? {
      PairingAnswers(w, i, t, bytes, at);
    } else {
      SupersedingAnswers(w, i, t, bytes, at);
    }
  }

  /** What an arriving session was before the relay noted the time makes no difference to how its hello is answered. */
  lemma NotedAnswers(w: World, w': World, i: Id, t: Token, at: int)
    requires Inv(w) && i in w.peers && w.peers[i].state.Greeting? && HelloAnswered(Noticed(w, i, at), w', i, t, at)
    ensures HelloAnswered(w, w', i, t, at)
  {
    if t in w.entries {
      NewcomerIsNotHeld(w, i, t);
    }
  }

  lemma FirstTextIsAnswered(cfg: Config, w: World, i: Id, text: TextFrame, at: int)
    requires Inv(w) && i in w.peers && w.peers[i].state.Greeting?
    ensures var w' := AfterText(cfg, w, i, text, at);
            if text.HelloText? then HelloAnswered(w, w', i, text.token, at) else EndsFor(w, w', i, BadHello)
  {
    QuietKeepsInv(w, i, w.peers[i].(lastHeardAt := at));
    if text.HelloText? {
      GreetingIsAnswered(Noticed(w, i, at), i, text.token, text.bytes, at);
      NotedAnswers(w, AfterHello(Noticed(w, i, at), i, text, at), i, text.token, at);
    } else {
      ClosingEndsFor(w, i, w.peers[i].(lastHeardAt := at), BadHello);
    }
  }

  /**
   * A hello, after any run. It parks whoever says it, or pairs it with the one that was parked under its token, or ends
   * the session that was live under it and parks it there; each socket concerned hears exactly that, and nobody else
   * anything. A first text frame that is no hello ends its session.
   */
  lemma HelloIsAnswered(cfg: Config, es: seq<Event>, i: Id, text: TextFrame, at: int)
    requires i in Run(cfg, es).world.peers && Run(cfg, es).world.peers[i].state.Greeting?
    ensures var w := Run(cfg, es).world;
            var w' := Run(cfg, es + [TextIn(i, text, at)]).world;
            if text.HelloText? then HelloAnswered(w, w', i, text.token, at) else EndsFor(w, w', i, BadHello)
  {
    StoryOfEveryRun(cfg, es);
    RunExtends(cfg, es, TextIn(i, text, at));
    FirstTextIsAnswered(cfg, Run(cfg, es).world, i, text, at);
  }

  // ---------------------------------------------------------------- the story so far

  /** A session never paired: nothing before its hello, and then at most that it waits. */
  ghost predicate Lone(p: Peer, i: Id, hello: Option<nat>, open: (nat, Id) -> bool, n: nat) {
    p.sessionId.None? ==>
      match hello
      case None => News(p.socket.wire) == [] && !p.state.Waiting?
      case Some(m) => m < n && !p.state.Greeting? && News(p.socket.wire) == if open(m, i) then [WaitingFrame] else []
  }

  /** A session paired by the later of two hellos, its own the `m`th event. */
  ghost predicate Coupled(p: Peer, i: Id, m: nat, k: nat, open: (nat, Id) -> bool, n: nat) {
    && m != k && m < n && k < n && p.sessionId.Some?
    && News(p.socket.wire)
       == (if m < k && open(m, i) then [WaitingFrame] else [])
          + (if open(Max(m, k), i) then [PairedFrame(p.sessionId.value, m > k)] else [])
  }

  ghost predicate BothHello(w: World, hello: Id -> Option<nat>, open: (nat, Id) -> bool, n: nat, i: Id, j: Id)
    requires Mates(w, i, j)
  {
    hello(i).Some? && hello(j).Some? && Coupled(w.peers[i], i, hello(i).value, hello(j).value, open, n)
  }

  ghost predicate NewsStory(w: World, hello: Id -> Option<nat>, open: (nat, Id) -> bool, n: nat) {
    && (forall i {:trigger hello(i)} :: if i in w.peers then Lone(w.peers[i], i, hello(i), open, n) else hello(i).None?)
    && (forall i, j :: Mates(w, i, j) ==> BothHello(w, hello, open, n, i, j))
  }

  lemma NoNewsKeepsStory(w: World, w': World, hello: Id -> Option<nat>, hello': Id -> Option<nat>, open: (nat, Id) -> bool, n: nat)
    requires NewsStory(w, hello, open, n) && NoNews(w, w') && forall i :: hello'(i) == hello(i)
    ensures NewsStory(w', hello', open, n + 1)
  {
    forall i, j | Mates(w', i, j)
      ensures BothHello(w', hello', open, n + 1, i, j)
    {
      assert Mates(w, i, j) && BothHello(w, hello, open, n, i, j);
    }
    forall i
      ensures if i in w'.peers then Lone(w'.peers[i], i, hello'(i), open, n + 1) else hello'(i).None?
    {
      assert i in w.peers ==> Lone(w.peers[i], i, hello(i), open, n);
    }
  }

  lemma WaitingKeepsStory(w: World, w': World, hello: Id -> Option<nat>, hello': Id -> Option<nat>, open: (nat, Id) -> bool, n: nat, i: Id)
    requires NewsStory(w, hello, open, n) && StartsWaiting(w, w', i) && hello(i) == None
    requires open(n, i) == w.peers[i].socket.open && forall k :: hello'(k) == if k == i then Some(n) else hello(k)
    ensures NewsStory(w', hello', open, n + 1)
  {
    forall k, j | Mates(w', k, j)
      ensures BothHello(w', hello', open, n + 1, k, j)
    {
      assert Mates(w, k, j) && BothHello(w, hello, open, n, k, j);
    }
    forall k
      ensures if k in w'.peers then Lone(w'.peers[k], k, hello'(k), open, n + 1) else hello'(k).None?
    {
      assert k in w.peers ==> Lone(w.peers[k], k, hello(k), open, n);
    }
  }

  lemma PairingKeepsStory(w: World, w': World, hello: Id -> Option<nat>, hello': Id -> Option<nat>, open: (nat, Id) -> bool, n: nat, i: Id, j: Id)
    requires Inv(w) && NewsStory(w, hello, open, n) && PairedWith(w, w', i, j) && hello(i) == None
    requires open(n, i) == w.peers[i].socket.open && open(n, j) == w.peers[j].socket.open
    requires forall k :: hello'(k) == if k == i then Some(n) else hello(k)
    ensures NewsStory(w', hello', open, n + 1)
  {
    assert Lone(w.peers[i], i, hello(i), open, n) && Lone(w.peers[j], j, hello(j), open, n);
    forall k, l | Mates(w', k, l)
      ensures BothHello(w', hello', open, n + 1, k, l)
    {
      PairingMatesOnly(w, w', i, j, k, l);
      if Mates(w, k, l) && w'.peers[k] == w.peers[k] {
        assert BothHello(w, hello, open, n, k, l);
      }
    }
    forall k
      ensures if k in w'.peers then Lone(w'.peers[k], k, hello'(k), open, n + 1) else hello'(k).None?
    {
      assert k in w.peers ==> Lone(w.peers[k], k, hello(k), open, n);
    }
  }

  lemma ArrivalIsNoNews(w: World, hello: Id -> Option<nat>, hello': Id -> Option<nat>, open: (nat, Id) -> bool, n: nat, i: Id, p: Peer)
    requires NewsStory(w, hello, open, n) && i !in w.peers && forall k :: hello'(k) == hello(k)
    requires p.sessionId.None? && !p.state.Waiting? && News(p.socket.wire) == []
    ensures NewsStory(With(w, i, p), hello', open, n + 1)
  {
    var w' := With(w, i, p);
    forall k, j | Mates(w', k, j)
      ensures BothHello(w', hello', open, n + 1, k, j)
    {
      assert Mates(w, k, j) && BothHello(w, hello, open, n, k, j);
    }
    forall k
      ensures if k in w'.peers then Lone(w'.peers[k], k, hello'(k), open, n + 1) else hello'(k).None?
    {
      assert k in w.peers ==> Lone(w.peers[k], k, hello(k), open, n);
    }
  }

  // ---------------------------------------------------------------- every run

  lemma NextWorld(cfg: Config, es: seq<Event>, n: nat)
    requires n < |es|
    ensures At(cfg, es, n + 1) == WorldAfter(cfg, Run(cfg, es[..n]), es[n])
  {
    assert es[..n + 1] == es[..n] + [es[n]];
    RunExtends(cfg, es[..n], es[n]);
  }

  lemma GreeterHasNotSpoken(w: World, hello: Id -> Option<nat>, open: (nat, Id) -> bool, n: nat, i: Id)
    requires Inv(w) && NewsStory(w, hello, open, n) && i in w.peers && w.peers[i].state.Greeting?
    ensures hello(i).None?
  {
    assert SessionAgrees(w, i) && Lone(w.peers[i], i, hello(i), open, n);
  }

  function Noticed(w: World, i: Id, at: int): World
    requires i in w.peers
  {
    With(w, i, w.peers[i].(lastHeardAt := at))
  }

  ghost predicate HelloReached(w0: World, w': World, i: Id, t: Token, at: int)
    requires i in w0.peers
  {
    var w := Noticed(w0, i, at);
    Inv(w) && if t in w.entries && w.entries[t].Parked? then PairedWith(w, w', i, w.entries[t].peer) else StartsWaiting(w, w', i)
  }

  lemma HelloReaches(cfg: Config, r: Relay, e: Event)
    requires Inv(r.world) && Greets(r.world, e) && e.text.HelloText?
    ensures HelloReached(r.world, WorldAfter(cfg, r, e), e.i, e.text.token, e.at)
  {
    QuietKeepsInv(r.world, e.i, r.world.peers[e.i].(lastHeardAt := e.at));
    HelloIsNews(Noticed(r.world, e.i, e.at), e.i, e.text.token, e.text.bytes, e.at);
  }

  /** A hello, whoever is waiting. */
  lemma HelloKeepsStory(w0: World, w': World, i: Id, t: Token, at: int,
                        hello: Id -> Option<nat>, hello': Id -> Option<nat>, open: (nat, Id) -> bool, n: nat)
    requires NewsStory(w0, hello, open, n) && i in w0.peers && hello(i) == None && HelloReached(w0, w', i, t, at)
    requires forall k :: k in w0.peers ==> open(n, k) == w0.peers[k].socket.open
    requires forall k :: hello'(k) == if k == i then Some(n) else hello(k)
    ensures NewsStory(w', hello', open, n + 1)
  {
    var w := Noticed(w0, i, at);
    NoNewsSoFar(w0, w, hello, open, n);
    if t in w.entries && w.entries[t].Parked? {
      PairingKeepsStory(w, w', hello, hello', open, n, i, w.entries[t].peer);
    } else {
      WaitingKeepsStory(w, w', hello, hello', open, n, i);
    }
  }

  lemma NoNewsSoFar(w: World, w1: World, hello: Id -> Option<nat>, open: (nat, Id) -> bool, n: nat)
    requires NewsStory(w, hello, open, n) && NoNews(w, w1) && forall k :: k in w.peers ==> w1.peers[k].state == w.peers[k].state
    ensures NewsStory(w1, hello, open, n)
  {
    forall i, j | Mates(w1, i, j)
      ensures BothHello(w1, hello, open, n, i, j)
    {
      assert Mates(w, i, j) && BothHello(w, hello, open, n, i, j);
    }
    forall i
      ensures if i in w1.peers then Lone(w1.peers[i], i, hello(i), open, n) else hello(i).None?
    {
      assert i in w.peers ==> Lone(w.peers[i], i, hello(i), open, n);
    }
  }

  ghost predicate OneMoreHello(w: World, e: Event, hello: Id -> Option<nat>, hello': Id -> Option<nat>, n: nat) {
    forall k :: hello'(k) == if Greets(w, e) && e.text.HelloText? && k == e.i then Some(n) else hello(k)
  }

  lemma StepKeepsNews(cfg: Config, r: Relay, e: Event, hello: Id -> Option<nat>, hello': Id -> Option<nat>, open: (nat, Id) -> bool, n: nat)
    requires Inv(r.world) && NewsStory(r.world, hello, open, n)
    requires forall k :: k in r.world.peers ==> open(n, k) == r.world.peers[k].socket.open
    requires OneMoreHello(r.world, e, hello, hello', n)
    ensures NewsStory(WorldAfter(cfg, r, e), hello', open, n + 1)
  {
    if Greets(r.world, e) && e.text.HelloText? {
      HelloReaches(cfg, r, e);
      GreeterHasNotSpoken(r.world, hello, open, n, e.i);
      HelloKeepsStory(r.world, WorldAfter(cfg, r, e), e.i, e.text.token, e.at, hello, hello', open, n);
    } else if e.Connect? && e.i !in r.world.peers && !r.shuttingDown {
      ArrivalIsNoNews(r.world, hello, hello', open, n, e.i, Opened(cfg, e.at));
    } else {
      if !e.Connect? {
        OnlyHellosAreNews(cfg, r, e);
      }
      NoNewsKeepsStory(r.world, WorldAfter(cfg, r, e), hello, hello', open, n);
    }
  }

  function Hellos(cfg: Config, es: seq<Event>, n: nat): Id -> Option<nat>
    requires n <= |es|
  {
    (i: Id) => HelloAt(cfg, es, n, i)
  }

  function Opens(cfg: Config, es: seq<Event>): (nat, Id) -> bool {
    (m: nat, i: Id) => OpenAt(cfg, es, m, i)
  }

  lemma {:induction false} NewsOfEveryRun(cfg: Config, es: seq<Event>, n: nat)
    requires n <= |es|
    ensures NewsStory(At(cfg, es, n), Hellos(cfg, es, n), Opens(cfg, es), n)
  {
    if n > 0 {
      NewsOfEveryRun(cfg, es, n - 1);
      NewsOfOneMore(cfg, es, n - 1);
    } else {
      assert es[..0] == [];
    }
  }

  lemma NewsOfOneMore(cfg: Config, es: seq<Event>, n: nat)
    requires n < |es| && NewsStory(At(cfg, es, n), Hellos(cfg, es, n), Opens(cfg, es), n)
    ensures NewsStory(At(cfg, es, n + 1), Hellos(cfg, es, n + 1), Opens(cfg, es), n + 1)
  {
    StoryOfEveryRun(cfg, es[..n]);
    NextWorld(cfg, es, n);
    GreetersAreNew(cfg, es, n);
    StepKeepsNews(cfg, Run(cfg, es[..n]), es[n], Hellos(cfg, es, n), Hellos(cfg, es, n + 1), Opens(cfg, es), n);
  }

  /** Whoever is greeting has not said its hello yet. */
  lemma GreetersAreNew(cfg: Config, es: seq<Event>, n: nat)
    requires n < |es| && Inv(At(cfg, es, n)) && NewsStory(At(cfg, es, n), Hellos(cfg, es, n), Opens(cfg, es), n)
    ensures OneMoreHello(At(cfg, es, n), es[n], Hellos(cfg, es, n), Hellos(cfg, es, n + 1), n)
  {
    var w, e := At(cfg, es, n), es[n];
    var hello, hello' := Hellos(cfg, es, n), Hellos(cfg, es, n + 1);
    forall k
      ensures hello'(k) == if Greets(w, e) && e.text.HelloText? && k == e.i then Some(n) else hello(k)
    {
      assert SaysHello(cfg, es, n, k) <==> Greets(w, e) && e.text.HelloText? && k == e.i;
      if SaysHello(cfg, es, n, k) {
        GreeterHasNotSpoken(w, hello, Opens(cfg, es), n, k);
      }
      assert hello(k) == HelloAt(cfg, es, n, k) && hello'(k) == HelloAt(cfg, es, n + 1, k);
    }
  }

  // ---------------------------------------------------------------- the theorems

  /**
   * Two mates, over any run. Each said one hello, at different events; at the later of the two both were told, each by
   * exactly one notice if its socket was open, and the one that arrived later, and it alone, is told to initiate. The
   * earlier had been told that it waits, the later never was.
   */
  lemma LaterHelloInitiates(cfg: Config, es: seq<Event>, i: Id, j: Id)
    requires Mates(Run(cfg, es).world, i, j)
    ensures var p := Run(cfg, es).world.peers[i];
      exists m: nat, n: nat ::
        && m < |es| && n < |es| && m != n && SaysHello(cfg, es, m, i) && SaysHello(cfg, es, n, j)
        && News(p.socket.wire)
           == (if m < n && OpenAt(cfg, es, m, i) then [WaitingFrame] else [])
              + (if OpenAt(cfg, es, Max(m, n), i) then [PairedFrame(p.sessionId.value, m > n)] else [])
  {
    assert es[..|es|] == es;
    NewsOfEveryRun(cfg, es, |es|);
    var w := At(cfg, es, |es|);
    assert BothHello(w, Hellos(cfg, es, |es|), Opens(cfg, es), |es|, i, j);
    HelloIsSaid(cfg, es, |es|, i);
    HelloIsSaid(cfg, es, |es|, j);
  }

  lemma {:induction false} HelloIsSaid(cfg: Config, es: seq<Event>, n: nat, i: Id)
    requires n <= |es| && HelloAt(cfg, es, n, i).Some?
    ensures HelloAt(cfg, es, n, i).value < n && SaysHello(cfg, es, HelloAt(cfg, es, n, i).value, i)
  {
    if HelloAt(cfg, es, n - 1, i).Some? {
      HelloIsSaid(cfg, es, n - 1, i);
    }
  }

  lemma {:induction false} HelloIsKept(cfg: Config, es: seq<Event>, m: nat, n: nat, i: Id)
    requires m < n <= |es| && HelloAt(cfg, es, m + 1, i).Some?
    ensures HelloAt(cfg, es, n, i) == HelloAt(cfg, es, m + 1, i)
  {
    if m + 1 < n {
      HelloIsKept(cfg, es, m, n - 1, i);
    }
  }

  /** Nobody says hello twice: who has, is past greeting for good. */
  lemma HelloIsSaidOnce(cfg: Config, es: seq<Event>, m: nat, n: nat, i: Id)
    requires m < |es| && n < |es| && SaysHello(cfg, es, m, i) && SaysHello(cfg, es, n, i)
    ensures m == n
  {
    var first, second := if m < n then m else n, Max(m, n);
    NewsOfEveryRun(cfg, es, second);
    StoryOfEveryRun(cfg, es[..second]);
    GreeterHasNotSpoken(At(cfg, es, second), Hellos(cfg, es, second), Opens(cfg, es), second, i);
    if first < second {
      HelloIsKept(cfg, es, first, second, i);
    }
  }

  /** A session never paired hears at most that it waits, and that exactly when its hello found its socket open. */
  lemma LoneHearsOnlyToWait(cfg: Config, es: seq<Event>, i: Id)
    requires i in Run(cfg, es).world.peers && Run(cfg, es).world.peers[i].sessionId.None?
    ensures var news := News(Run(cfg, es).world.peers[i].socket.wire);
      if exists m :: 0 <= m < |es| && SaysHello(cfg, es, m, i)
      then exists m :: 0 <= m < |es| && SaysHello(cfg, es, m, i) && news == if OpenAt(cfg, es, m, i) then [WaitingFrame] else []
      else news == []
  {
    assert es[..|es|] == es;
    NewsOfEveryRun(cfg, es, |es|);
    var hello := HelloAt(cfg, es, |es|, i);
    var p := At(cfg, es, |es|).peers[i];
    assert Lone(p, i, Hellos(cfg, es, |es|)(i), Opens(cfg, es), |es|);
    if hello.Some? {
      HelloIsSaid(cfg, es, |es|, i);
    }
    forall m | 0 <= m < |es| && SaysHello(cfg, es, m, i)
      ensures hello.Some?
    {
      SpokenIsKept(cfg, es, m, |es|, i);
    }
  }

  lemma {:induction false} SpokenIsKept(cfg: Config, es: seq<Event>, m: nat, n: nat, i: Id)
    requires m < n <= |es| && SaysHello(cfg, es, m, i)
    ensures HelloAt(cfg, es, n, i).Some?
  {
    if m + 1 < n {
      SpokenIsKept(cfg, es, m, n - 1, i);
    }
  }

  lemma {:induction false} NewsAreHeard(wire: seq<Wire>, frame: Control)
    requires frame.WaitingFrame? || frame.PairedFrame?
    ensures frame in News(wire) <==> Text(frame) in wire
  {
    if wire != [] {
      NewsAreHeard(wire[..|wire| - 1], frame);
      assert wire == wire[..|wire| - 1] + [wire[|wire| - 1]];
    }
  }

  /** Whoever had to wait is never told to initiate: of two peers that do as they are told, one starts the handshake. */
  lemma WaitersNeverInitiate(cfg: Config, es: seq<Event>, i: Id, session: nat)
    requires i in Run(cfg, es).world.peers && Text(WaitingFrame) in Run(cfg, es).world.peers[i].socket.wire
    ensures Text(PairedFrame(session, true)) !in Run(cfg, es).world.peers[i].socket.wire
  {
    StoryOfEveryRun(cfg, es);
    var w := Run(cfg, es).world;
    NewsAreHeard(w.peers[i].socket.wire, WaitingFrame);
    NewsAreHeard(w.peers[i].socket.wire, PairedFrame(session, true));
    if w.peers[i].sessionId.None? {
      LoneHearsOnlyToWait(cfg, es, i);
    } else {
      assert UnpairedAt(w, TallyOf(cfg, es), i);
      var j :| Mates(w, i, j);
      LaterHelloInitiates(cfg, es, i, j);
    }
  }
}
