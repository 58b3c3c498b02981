/**
 * What a sweep does to whom and why, over every run: who is sent away for which deadline, whose ping is due, and that a
 * peer is cut off only for a ping it was sent and left unanswered. Everything is read off logs and clocks.
 */
module RelayDeadlines {
  import opened Wrappers
  import opened RelayModel
  import opened RelayInvariant
  import opened RelayRun
  import opened RelayHistory
  import opened RelayTheorems
  import opened RelaySweep
  import opened RelayAnswers
  import opened RelayPairing

  // ---------------------------------------------------------------- what a sweep goes by

  predicate GreetedLate(cfg: Config, p: Peer, now: int) {
    p.state.Greeting? && now - p.openedAt >= cfg.helloTimeoutMs
  }

  ghost predicate WaitedOut(cfg: Config, w: World, i: Id, now: int) {
    cfg.pairTimeoutMs > 0 &&
    exists t :: t in w.entries && w.entries[t].Parked? && w.entries[t].peer == i && now - w.entries[t].since >= cfg.pairTimeoutMs
  }

  predicate FellSilent(cfg: Config, p: Peer, now: int) {
    && p.state.Paired? && cfg.idleTimeoutMs > 0
    && now - p.lastSpliceAt >= cfg.idleTimeoutMs && now - p.lastHeardAt >= cfg.idleTimeoutMs
  }

  predicate Unanswering(cfg: Config, p: Peer, now: int) {
    && cfg.pings && p.awaitingPong
    && now - p.lastPingAt >= cfg.keepaliveIntervalMs && now - p.lastHeardAt >= cfg.keepaliveIntervalMs
  }

  predicate PingDue(cfg: Config, p: Peer, now: int) {
    cfg.pings && !p.awaitingPong && p.socket.open && now - p.lastHeardAt >= cfg.keepaliveIntervalMs
  }

  function Pinged(p: Peer, now: int): Peer {
    Gaining(p, [Ping]).(awaitingPong := true, lastPingAt := now)
  }

  /** Left alone, or pinged because that was due. */
  predicate Standing(cfg: Config, p: Peer, q: Peer, now: int) {
    q == p || (PingDue(cfg, p, now) && q == Pinged(p, now))
  }

  predicate SentOffFrom(cfg: Config, p: Peer, q: Peer, code: CloseCode, now: int) {
    SentOff(p, q, code) || (PingDue(cfg, p, now) && SentOff(Pinged(p, now), q, code))
  }

  /** What may have become of a live session in a sweep, by its own account and its partner's. */
  predicate Fate(cfg: Config, p: Peer, mate: Option<Peer>, q: Peer, now: int) {
    || Standing(cfg, p, q, now)
    || (GreetedLate(cfg, p, now) && SentOffFrom(cfg, p, q, BadHello, now))
    || ((FellSilent(cfg, p, now) || (mate.Some? && FellSilent(cfg, mate.value, now))) && SentOffFrom(cfg, p, q, Idle, now))
    || (Unanswering(cfg, p, now) && q.state.Closed? && !q.socket.open && Hears(p, q, [Terminate]))
    || (mate.Some? && Unanswering(cfg, mate.value, now) && SentOffFrom(cfg, p, q, PartnerGone, now))
  }

  function MateOf(w: World, i: Id): Option<Peer> {
    if i in w.partners && w.partners[i] in w.peers then Some(w.peers[w.partners[i]]) else None
  }

  ghost predicate FateOf(cfg: Config, w: World, i: Id, q: Peer, now: int)
    requires i in w.peers
  {
    if w.peers[i].state.Closed? then q == w.peers[i] else Fate(cfg, w.peers[i], MateOf(w, i), q, now)
  }

  /** As far as a sweep has got from `w`. */
  ghost predicate SweptSoFar(cfg: Config, w: World, v: World, now: int) {
    && v.peers.Keys == w.peers.Keys
    && (forall k {:trigger FateOf(cfg, w, k, v.peers[k], now)} :: k in w.peers ==> FateOf(cfg, w, k, v.peers[k], now))
    && (forall k :: k in v.partners ==> k in w.partners && w.partners[k] == v.partners[k])
  }

  lemma EndingIsFate(cfg: Config, p: Peer, q: Peer, code: CloseCode, now: int)
    requires Standing(cfg, p, q, now) && !p.state.Closed?
    ensures SentOffFrom(cfg, p, Ended(q, code), code, now)
  {
    EndedIsSentOff(q, code);
  }

  /** A live session of a sweep half done is as it was, or pinged. */
  lemma LiveStands(cfg: Config, w: World, v: World, now: int, i: Id)
    requires SweptSoFar(cfg, w, v, now) && i in v.peers && !v.peers[i].state.Closed?
    ensures i in w.peers && !w.peers[i].state.Closed? && Standing(cfg, w.peers[i], v.peers[i], now)
  {
    assert FateOf(cfg, w, i, v.peers[i], now);
  }

  lemma OthersKeepFate(cfg: Config, w: World, v: World, v': World, now: int, touched: set<Id>)
    requires SweptSoFar(cfg, w, v, now) && OthersUntouched(v, v', touched)
    requires forall k :: k in v'.partners ==> k in v.partners && v'.partners[k] == v.partners[k]
    requires forall k :: k in touched && k in w.peers && k in v'.peers ==> FateOf(cfg, w, k, v'.peers[k], now)
    ensures SweptSoFar(cfg, w, v', now)
  {
    forall k | k in w.peers
      ensures FateOf(cfg, w, k, v'.peers[k], now)
    {
      assert FateOf(cfg, w, k, v.peers[k], now);
    }
  }

  lemma GreetingSwept(cfg: Config, w: World, v: World, i: Id, now: int)
    requires Inv(v) && SweptSoFar(cfg, w, v, now) && i in v.peers && GreetingOverdue(cfg, v.peers[i], now)
    ensures SweptSoFar(cfg, w, AfterClose(v, i, BadHello), now)
  {
    LiveStands(cfg, w, v, now, i);
    EndingIsFate(cfg, w.peers[i], v.peers[i], BadHello, now);
    CloseEndsTogether(v, i, BadHello);
    OthersKeepFate(cfg, w, v, AfterClose(v, i, BadHello), now, {i});
  }

  /** A session in a pair still standing, and its partner, as the sweep found them. */
  lemma PairStands(cfg: Config, w: World, v: World, i: Id, now: int)
    requires Inv(v) && SweptSoFar(cfg, w, v, now) && i in v.peers && v.peers[i].state.Paired?
    ensures i in v.partners && i in w.partners && v.partners[i] == w.partners[i]
    ensures var j := v.partners[i];
            && j != i && j in v.partners && v.partners[j] == i && j in w.partners && w.partners[j] == i
            && j in v.peers && j in w.peers && i in w.peers && !v.peers[j].state.Closed?
            && Standing(cfg, w.peers[i], v.peers[i], now) && Standing(cfg, w.peers[j], v.peers[j], now)
            && MateOf(w, i) == Some(w.peers[j]) && MateOf(w, j) == Some(w.peers[i])
  {
    assert SessionAgrees(v, i);
    PartnersAreMates(v, i);
    LiveStands(cfg, w, v, now, i);
    LiveStands(cfg, w, v, now, v.partners[i]);
  }

  lemma SilenceSwept(cfg: Config, w: World, v: World, i: Id, now: int)
    requires Inv(v) && SweptSoFar(cfg, w, v, now) && i in v.peers && IdleOverdue(cfg, v.peers[i], now)
    ensures SweptSoFar(cfg, w, AfterSilence(v, i), now)
  {
    PairStands(cfg, w, v, i, now);
    var j := v.partners[i];
    EndingIsFate(cfg, w.peers[i], v.peers[i], Idle, now);
    EndingIsFate(cfg, w.peers[j], v.peers[j], Idle, now);
    SilenceEnds(v, i);
    OthersKeepFate(cfg, w, v, AfterSilence(v, i), now, {i, j});
  }

  lemma SilenceEnds(v: World, i: Id)
    requires Inv(v) && i in v.peers && v.peers[i].state.Paired?
    ensures i in v.partners && v.partners[i] in v.peers
    ensures var j, v' := v.partners[i], AfterSilence(v, i);
            && OthersUntouched(v, v', {i, j}) && v'.partners == v.partners - {i, j}
            && v'.peers[i] == Ended(v.peers[i], Idle) && v'.peers[j] == Ended(v.peers[j], Idle)
  {
    assert SessionAgrees(v, i);
    var t := v.peers[i].token.value;
    HoldersCarryToken(v, t, i);
    PartnersAreMates(v, i);
    EndSessionEndsTogether(v, t, Idle);
  }

  lemma CutOffEnds(v: World, i: Id)
    requires Inv(v) && i in v.peers && !v.peers[i].state.Closed?
    ensures var v' := AfterCutOff(v, i);
            && v'.partners == v.partners - Together(v, i)
            && if v.peers[i].state.Paired?
               then i in v.partners && v.partners[i] in v.peers && v.partners[i] != i &&
                    v'.peers == v.peers[i := CutOff(v.peers[i])][v.partners[i] := Ended(v.peers[v.partners[i]], PartnerGone)]
               else v'.peers == v.peers[i := CutOff(v.peers[i])]
  {
    ReleaseEndsTogether(v, i, CutOff(v.peers[i]));
  }

  lemma CutOffIsFate(cfg: Config, p: Peer, q: Peer, mate: Option<Peer>, now: int)
    requires Standing(cfg, p, q, now) && Unanswering(cfg, q, now) && cfg.keepaliveIntervalMs > 0
    ensures Unanswering(cfg, p, now) && Fate(cfg, p, mate, CutOff(q), now)
  {
  }

  lemma CutOffSwept(cfg: Config, w: World, v: World, i: Id, now: int)
    requires Inv(v) && SweptSoFar(cfg, w, v, now) && i in v.peers && !v.peers[i].state.Closed?
    requires Unanswering(cfg, v.peers[i], now) && cfg.keepaliveIntervalMs > 0
    ensures SweptSoFar(cfg, w, AfterCutOff(v, i), now)
  {
    LiveStands(cfg, w, v, now, i);
    CutOffEnds(v, i);
    CutOffIsFate(cfg, w.peers[i], v.peers[i], MateOf(w, i), now);
    if v.peers[i].state.Paired? {
      PairStands(cfg, w, v, i, now);
      EndingIsFate(cfg, w.peers[v.partners[i]], v.peers[v.partners[i]], PartnerGone, now);
      OthersKeepFate(cfg, w, v, AfterCutOff(v, i), now, {i, v.partners[i]});
    } else {
      OthersKeepFate(cfg, w, v, AfterCutOff(v, i), now, {i});
    }
  }

  lemma PingSwept(cfg: Config, w: World, v: World, i: Id, now: int)
    requires SweptSoFar(cfg, w, v, now) && i in v.peers && !v.peers[i].state.Closed? && PingDue(cfg, v.peers[i], now)
    ensures SweptSoFar(cfg, w, With(v, i, Pinged(v.peers[i], now)), now)
  {
    LiveStands(cfg, w, v, now, i);
    OthersKeepFate(cfg, w, v, With(v, i, Pinged(v.peers[i], now)), now, {i});
  }

  lemma OneMoreSwept(cfg: Config, w: World, v: World, i: Id, now: int)
    requires Inv(v) && SweptSoFar(cfg, w, v, now) && i in v.peers && cfg.keepaliveIntervalMs > 0
    ensures SweptSoFar(cfg, w, AfterSweepOne(cfg, v, i, now), now)
  {
    var p := v.peers[i];
    if p.state.Closed? {
    } else if GreetingOverdue(cfg, p, now) {
      GreetingSwept(cfg, w, v, i, now);
    } else if IdleOverdue(cfg, p, now) {
      SilenceSwept(cfg, w, v, i, now);
    } else if Unanswering(cfg, p, now) {
      CutOffSwept(cfg, w, v, i, now);
    } else if PingDue(cfg, p, now) {
      PingSwept(cfg, w, v, i, now);
      assert Put(p.socket, Ping) == Gaining(p, [Ping]).socket;
    }
  }

  lemma {:induction false} AllSwept(cfg: Config, w: World, order: seq<Id>, now: int)
    requires Inv(w) && cfg.keepaliveIntervalMs > 0
    ensures SweptSoFar(cfg, w, SweptAll(cfg, w, order, now), now)
  {
    if order != [] {
      var front, i := order[..|order| - 1], order[|order| - 1];
      AllSwept(cfg, w, front, now);
      SweptAllKeepsInv(cfg, w, front, now);
      if i in SweptAll(cfg, w, front, now).peers {
        OneMoreSwept(cfg, w, SweptAll(cfg, w, front, now), i, now);
      }
    }
  }

  // ---------------------------------------------------------------- every sweep

  lemma ExpiryIsFate(cfg: Config, w: World, i: Id, now: int)
    requires Inv(w) && i in w.peers
    ensures var v := AfterExpiry(cfg, w, now);
            && i in v.peers && MateOf(v, i) == MateOf(w, i)
            && (if w.peers[i].state.Closed? then v.peers[i] == w.peers[i]
                else if WaitedOut(cfg, w, i, now) then SentOff(w.peers[i], v.peers[i], PairTimeout)
                else v.peers[i] == w.peers[i])
  {
    assert WaitedOut(cfg, w, i, now) <==> i in Expired(cfg, w, now);
    if i in Expired(cfg, w, now) {
      ExpiredIsParked(cfg, w, now, i);
      EndedIsSentOff(w.peers[i], PairTimeout);
    }
    if i in w.partners {
      PartnersAreMates(w, i);
      ExpirySparesPairs(cfg, w, now, w.partners[i]);
    }
  }

  /** Nothing is left to do about a session that stands, at the instant it was swept. */
  lemma StandingIsNotLate(cfg: Config, p: Peer, q: Peer, now: int)
    requires Standing(cfg, p, q, now) && Settled(cfg, q, now) && !q.state.Closed?
    ensures !GreetedLate(cfg, p, now) && !FellSilent(cfg, p, now) && !Unanswering(cfg, p, now)
    ensures PingDue(cfg, p, now) ==> q == Pinged(p, now)
  {
  }

  lemma LiveIsStanding(cfg: Config, p: Peer, mate: Option<Peer>, q: Peer, now: int)
    requires Fate(cfg, p, mate, q, now) && !q.state.Closed?
    ensures Standing(cfg, p, q, now)
  {
  }

  /** What a sweep makes of one session, live before it. */
  ghost predicate SweptFor(cfg: Config, w: World, i: Id, q: Peer, now: int)
    requires i in w.peers
  {
    var p := w.peers[i];
    if WaitedOut(cfg, w, i, now) then SentOff(p, q, PairTimeout)
    else
      && Fate(cfg, p, MateOf(w, i), q, now)
      && (!q.state.Closed? ==>
            && !GreetedLate(cfg, p, now) && !FellSilent(cfg, p, now) && !Unanswering(cfg, p, now)
            && (PingDue(cfg, p, now) ==> q == Pinged(p, now)))
  }

  /**
   * Every sweep of every run. Whoever is sent away was late with its hello, or waited out its parking, or was in a pair one
   * half of which had fallen silent, or left its ping unanswered, or was the partner of one that did, and hears which;
   * whoever is late in any of these ways goes; everyone else is left as it is, but for a ping that is due.
   */
  lemma SweepHasItsReasons(cfg: Config, es: seq<Event>, i: Id, now: int)
    requires i in Run(cfg, es).world.peers && cfg.keepaliveIntervalMs > 0
    ensures var w, w' := Run(cfg, es).world, Run(cfg, es + [SweepAt(now)]).world;
            i in w'.peers &&
            if w.peers[i].state.Closed? then w'.peers[i] == w.peers[i] else SweptFor(cfg, w, i, w'.peers[i], now)
  {
    StoryOfEveryRun(cfg, es);
    RunExtends(cfg, es, SweepAt(now));
    SweepIsFate(cfg, Run(cfg, es), i, now);
  }

  lemma SweepIsFate(cfg: Config, r: Relay, i: Id, now: int)
    requires RelayInv(r) && i in r.world.peers && cfg.keepaliveIntervalMs > 0
    ensures var w' := AfterSweep(cfg, r.world, r.connections, now);
            i in w'.peers &&
            if r.world.peers[i].state.Closed? then w'.peers[i] == r.world.peers[i] else SweptFor(cfg, r.world, i, w'.peers[i], now)
  {
    var v := AfterExpiry(cfg, r.world, now);
    var w' := AfterSweep(cfg, r.world, r.connections, now);
    ExpiryIsFate(cfg, r.world, i, now);
    ExpiryKeepsInv(cfg, r.world, now);
    AllSwept(cfg, v, r.connections, now);
    assert FateOf(cfg, v, i, w'.peers[i], now);
    SweepSettles(cfg, r, now);
    if !w'.peers[i].state.Closed? {
      LiveIsStanding(cfg, v.peers[i], MateOf(v, i), w'.peers[i], now);
      StandingIsNotLate(cfg, v.peers[i], w'.peers[i], now);
    }
  }

  // ---------------------------------------------------------------- signs of life

  predicate SignOf(e: Event, i: Id) {
    (e.TextIn? || e.BinaryIn? || e.PongIn?) && e.i == i
  }

  predicate PongOf(e: Event, i: Id) {
    e.PongIn? && e.i == i
  }

  /** When a peer arrived, and when it was last heard from. */
  datatype Heard = Heard(first: int, last: int)

  function HeardOf(es: seq<Event>, n: nat, i: Id): Option<Heard>
    requires n <= |es|
  {
    if n == 0 then None
    else
      var before, e := HeardOf(es, n - 1, i), es[n - 1];
      if before.None? then (if e.Connect? && e.i == i then Some(Heard(e.at, e.at)) else None)
      else if SignOf(e, i) then Some(Heard(before.value.first, e.at))
      else before
  }

  /** Event `k` is a sweep that put a ping on the socket of `i`. */
  predicate Pings(cfg: Config, es: seq<Event>, k: nat, i: Id)
    requires k < |es|
  {
    var w, w' := At(cfg, es, k), At(cfg, es, k + 1);
    es[k].SweepAt? && i in w.peers && i in w'.peers && w'.peers[i].socket.wire == w.peers[i].socket.wire + [Ping]
  }

  /** Which event put the ping there that is still unanswered. */
  function OpenPing(cfg: Config, es: seq<Event>, n: nat, i: Id): Option<nat>
    requires n <= |es|
  {
    if n == 0 || PongOf(es[n - 1], i) then None
    else if Pings(cfg, es, n - 1, i) then Some(n - 1)
    else OpenPing(cfg, es, n - 1, i)
  }

  /** What one event changes about a session that outlives it. */
  ghost predicate Moves(p: Peer, q: Peer, e: Event, i: Id) {
    && q.openedAt == p.openedAt && q.lastHeardAt == (if SignOf(e, i) then e.at else p.lastHeardAt)
    && (if PongOf(e, i) then !q.awaitingPong
        else if e.SweepAt? && q.socket.wire == p.socket.wire + [Ping] then q.awaitingPong && q.lastPingAt == e.at
        else q.awaitingPong == p.awaitingPong && q.lastPingAt == p.lastPingAt)
  }

  ghost predicate SurvivorsMove(w: World, w': World, e: Event) {
    forall k {:trigger w'.peers[k]} :: k in w.peers && k in w'.peers && !w'.peers[k].state.Closed? ==>
      !w.peers[k].state.Closed? && Moves(w.peers[k], w'.peers[k], e, k)
  }

  lemma EndingMoves(w: World, w': World, i: Id, code: CloseCode, e: Event, sender: Id)
    requires EndsFor(w, w', i, code) && !e.SweepAt? && Inv(w)
    requires (forall k :: SignOf(e, k) ==> k == sender) && (sender == i || (i in w.partners && w.partners[i] == sender))
    ensures SurvivorsMove(w, w', e)
  {
  }

  lemma TextMoves(cfg: Config, w: World, i: Id, text: TextFrame, at: int)
    requires Inv(w) && i in w.peers
    ensures SurvivorsMove(w, AfterText(cfg, w, i, text, at), TextIn(i, text, at))
  {
    var w', e := AfterText(cfg, w, i, text, at), TextIn(i, text, at);
    if w.peers[i].state.Greeting? {
      FirstTextIsAnswered(cfg, w, i, text, at);
      if text.HelloText? {
        HelloMoves(w, w', i, text, at);
      } else {
        EndingMoves(w, w', i, BadHello, e, i);
      }
    } else if !w.peers[i].state.Closed? {
      LaterTextIsAnswered(cfg, w, i, text, at);
      var refusal := TextRefusal(cfg, w.peers[i], text, at);
      if refusal.Some? {
        EndingMoves(w, w', i, refusal.value, e, i);
      }
    }
  }

  lemma HelloMoves(w: World, w': World, i: Id, text: TextFrame, at: int)
    requires text.HelloText? && i in w.peers && w.peers[i].state.Greeting? && HelloAnswered(w, w', i, text.token, at)
    requires Inv(w)
    ensures SurvivorsMove(w, w', TextIn(i, text, at))
  {
    if text.token in w.entries {
      assert EntryAgrees(w, text.token);
    }
  }

  lemma BinaryMoves(cfg: Config, w: World, i: Id, payload: Payload, at: int)
    requires Inv(w) && i in w.peers
    ensures SurvivorsMove(w, AfterBinary(cfg, w, i, payload, at), BinaryIn(i, payload, at))
  {
    if !w.peers[i].state.Closed? {
      var w', e := AfterBinary(cfg, w, i, payload, at), BinaryIn(i, payload, at);
      BinaryIsAnswered(cfg, w, i, payload, at);
      var refusal := ContentRefusal(cfg, w.peers[i], |payload|, at);
      if refusal.Some? {
        EndingMoves(w, w', i, refusal.value, e, i);
      } else {
        PartnersAreMates(w, i);
        if w.peers[w.partners[i]].socket.backlog > cfg.maxBufferedBytes {
          EndingMoves(w, w', w.partners[i], SlowConsumer, e, i);
        }
      }
    }
  }

  lemma HangupMoves(w: World, i: Id)
    requires Inv(w) && i in w.peers
    ensures SurvivorsMove(w, AfterSocketClosed(LineDownAt(w, i), i), Hangup(i))
  {
    var w1 := LineDownAt(w, i);
    QuietKeepsInv(w, i, w1.peers[i]);
    if !w.peers[i].state.Closed? {
      ReleaseEndsTogether(w1, i, w1.peers[i].(state := Closed));
    }
  }

  lemma SweepMoves(cfg: Config, r: Relay, at: int)
    requires RelayInv(r) && cfg.keepaliveIntervalMs > 0
    ensures SurvivorsMove(r.world, AfterSweep(cfg, r.world, r.connections, at), SweepAt(at))
  {
    var w, w' := r.world, AfterSweep(cfg, r.world, r.connections, at);
    forall k | k in w.peers && k in w'.peers && !w'.peers[k].state.Closed?
      ensures !w.peers[k].state.Closed? && Moves(w.peers[k], w'.peers[k], SweepAt(at), k)
    {
      SweepIsFate(cfg, r, k, at);
      if !w.peers[k].state.Closed? {
        LiveIsStanding(cfg, w.peers[k], MateOf(w, k), w'.peers[k], at);
      }
    }
  }

  lemma StepMoves(cfg: Config, r: Relay, e: Event)
    requires RelayInv(r) && cfg.keepaliveIntervalMs > 0
    ensures SurvivorsMove(r.world, WorldAfter(cfg, r, e), e)
  {
    match e
    case TextIn(i, text, at) =>
      if i in r.world.peers {
        TextMoves(cfg, r.world, i, text, at);
      }
    case BinaryIn(i, payload, at) =>
      if i in r.world.peers {
        BinaryMoves(cfg, r.world, i, payload, at);
      }
    case Hangup(i) =>
      if i in r.world.peers {
        HangupMoves(r.world, i);
      }
    case SweepAt(at) =>
      SweepMoves(cfg, r, at);
    case _ =>
  }

  /** A live session's own account of when it was heard and what it was sent is what happened. */
  ghost predicate Remembers(p: Peer, heard: Option<Heard>, ping: Option<nat>, es: seq<Event>) {
    !p.state.Closed? ==>
      && heard == Some(Heard(p.openedAt, p.lastHeardAt))
      && (p.awaitingPong <==> ping.Some?)
      && (ping.Some? ==> ping.value < |es| && es[ping.value].SweepAt? && es[ping.value].at == p.lastPingAt)
  }

  ghost predicate AllRemember(cfg: Config, es: seq<Event>, n: nat)
    requires n <= |es|
  {
    var r := Run(cfg, es[..n]);
    && (forall i {:trigger r.world.peers[i]} :: i in r.world.peers ==> Remembers(r.world.peers[i], HeardOf(es, n, i), OpenPing(cfg, es, n, i), es))
    && (forall i :: i !in r.world.peers ==> OpenPing(cfg, es, n, i).None?)
    && (forall i :: HeardOf(es, n, i).Some? ==> i in r.world.peers || r.shuttingDown)
  }

  lemma RememberedNext(cfg: Config, es: seq<Event>, n: nat, i: Id, p: Peer, q: Peer)
    requires n < |es| && Remembers(p, HeardOf(es, n, i), OpenPing(cfg, es, n, i), es)
    requires !q.state.Closed? ==> !p.state.Closed? && Moves(p, q, es[n], i)
    requires i in At(cfg, es, n).peers && At(cfg, es, n).peers[i] == p && i in At(cfg, es, n + 1).peers && At(cfg, es, n + 1).peers[i] == q
    ensures Remembers(q, HeardOf(es, n + 1, i), OpenPing(cfg, es, n + 1, i), es)
  {
  }

  lemma NewcomerRemembers(cfg: Config, es: seq<Event>, n: nat, i: Id)
    requires n < |es| && es[n].Connect? && es[n].i == i && HeardOf(es, n, i).None? && OpenPing(cfg, es, n, i).None?
    ensures Remembers(Opened(cfg, es[n].at), HeardOf(es, n + 1, i), OpenPing(cfg, es, n + 1, i), es)
  {
  }

  /** Whose sessions there are after an event: those there were, and whoever was let in by it. */
  lemma WhoIsThere(cfg: Config, r: Relay, e: Event, i: Id)
    requires RelayInv(r) && WiresOk(r.world)
    ensures var w' := WorldAfter(cfg, r, e);
            && (i in r.world.peers ==> i in w'.peers)
            && (i in w'.peers && i !in r.world.peers ==> e.Connect? && e.i == i && !r.shuttingDown && w'.peers[i] == Opened(cfg, e.at))
            && (e.Connect? && e.i == i ==> i in w'.peers || r.shuttingDown)
  {
    StepForgetsNobody(cfg, r, e);
    if !e.Connect? && !e.Shutdown? {
      KindsOfEvent(cfg, r, e);
    }
  }

  lemma OneMoreRemembers(cfg: Config, es: seq<Event>, n: nat, i: Id)
    requires n < |es| && AllRemember(cfg, es, n) && cfg.keepaliveIntervalMs > 0
    requires i in At(cfg, es, n + 1).peers
    ensures Remembers(At(cfg, es, n + 1).peers[i], HeardOf(es, n + 1, i), OpenPing(cfg, es, n + 1, i), es)
  {
    StoryOfEveryRun(cfg, es[..n]);
    var r := Run(cfg, es[..n]);
    NextWorld(cfg, es, n);
    WhoIsThere(cfg, r, es[n], i);
    if i in r.world.peers {
      StepMoves(cfg, r, es[n]);
      RememberedNext(cfg, es, n, i, r.world.peers[i], At(cfg, es, n + 1).peers[i]);
    } else {
      NewcomerRemembers(cfg, es, n, i);
    }
  }

  lemma OneMoreKnown(cfg: Config, es: seq<Event>, n: nat, i: Id)
    requires n < |es| && AllRemember(cfg, es, n)
    ensures i !in At(cfg, es, n + 1).peers ==> OpenPing(cfg, es, n + 1, i).None?
    ensures HeardOf(es, n + 1, i).Some? ==> i in At(cfg, es, n + 1).peers || Run(cfg, es[..n + 1]).shuttingDown
  {
    StoryOfEveryRun(cfg, es[..n]);
    NextWorld(cfg, es, n);
    WhoIsThere(cfg, Run(cfg, es[..n]), es[n], i);
    assert es[..n + 1] == es[..n] + [es[n]];
    RunExtends(cfg, es[..n], es[n]);
  }

  lemma {:induction false} EveryRunRemembers(cfg: Config, es: seq<Event>, n: nat)
    requires n <= |es| && cfg.keepaliveIntervalMs > 0
    ensures AllRemember(cfg, es, n)
  {
    if n == 0 {
      assert es[..0] == [];
    } else {
      EveryRunRemembers(cfg, es, n - 1);
      forall i | i in At(cfg, es, n).peers
        ensures Remembers(At(cfg, es, n).peers[i], HeardOf(es, n, i), OpenPing(cfg, es, n, i), es)
      {
        OneMoreRemembers(cfg, es, n - 1, i);
      }
      forall i
        ensures i !in At(cfg, es, n).peers ==> OpenPing(cfg, es, n, i).None?
        ensures HeardOf(es, n, i).Some? ==> i in At(cfg, es, n).peers || Run(cfg, es[..n]).shuttingDown
      {
        OneMoreKnown(cfg, es, n - 1, i);
      }
    }
  }

  // ---------------------------------------------------------------- the cut

  lemma {:induction false} OpenPingWasSent(cfg: Config, es: seq<Event>, n: nat, i: Id)
    requires n <= |es| && OpenPing(cfg, es, n, i).Some?
    ensures var k := OpenPing(cfg, es, n, i).value;
            k < n && Pings(cfg, es, k, i) && forall m :: k < m < n ==> !PongOf(es[m], i)
  {
    if !Pings(cfg, es, n - 1, i) {
      OpenPingWasSent(cfg, es, n - 1, i);
    }
  }

  /** A sign of life that nothing later of `i` follows. */
  predicate LastHeardAt(es: seq<Event>, i: Id, m: nat) {
    && m < |es| && (SignOf(es[m], i) || (es[m].Connect? && es[m].i == i))
    && forall l :: m < l < |es| ==> !SignOf(es[l], i)
  }

  lemma {:induction false} HeardFrom(es: seq<Event>, n: nat, i: Id) returns (m: nat)
    requires n <= |es| && HeardOf(es, n, i).Some?
    ensures m < n && (SignOf(es[m], i) || (es[m].Connect? && es[m].i == i)) && es[m].at == HeardOf(es, n, i).value.last
    ensures forall l :: m < l < n ==> !SignOf(es[l], i)
  {
    if HeardOf(es, n - 1, i).Some? && !SignOf(es[n - 1], i) {
      m := HeardFrom(es, n - 1, i);
    } else {
      m := n - 1;
    }
  }

  /**
   * Nobody whose line is open is cut off without cause. If a sweep ends a session's log by a cut, an earlier sweep had put
   * a ping there, an interval ago at least, no pong has come since, and its last sign of life is an interval old.
   */
  lemma CutOffIsDeserved(cfg: Config, es: seq<Event>, i: Id, now: int)
    requires cfg.keepaliveIntervalMs > 0
    requires var w := Run(cfg, es).world; i in w.peers && !w.peers[i].state.Closed? && w.peers[i].socket.open
    requires var w' := Run(cfg, es + [SweepAt(now)]).world;
             i in w'.peers && w'.peers[i].socket.wire == Run(cfg, es).world.peers[i].socket.wire + [Terminate]
    ensures cfg.pings
    ensures exists k :: 0 <= k < |es| && Pings(cfg, es, k, i) && now - es[k].at >= cfg.keepaliveIntervalMs &&
                        forall m :: k < m < |es| ==> !PongOf(es[m], i)
    ensures exists m :: 0 <= m < |es| && LastHeardAt(es, i, m) && now - es[m].at >= cfg.keepaliveIntervalMs
  {
    var p, q := Run(cfg, es).world.peers[i], Run(cfg, es + [SweepAt(now)]).world.peers[i];
    SweepHasItsReasons(cfg, es, i, now);
    CutIsUnanswering(cfg, p, MateOf(Run(cfg, es).world, i), q, now);
    assert es[..|es|] == es;
    EveryRunRemembers(cfg, es, |es|);
    OpenPingWasSent(cfg, es, |es|, i);
    var m := HeardFrom(es, |es|, i);
    assert LastHeardAt(es, i, m);
  }

  /** Only a ping left unanswered ends an open socket's log without a word. */
  lemma CutIsUnanswering(cfg: Config, p: Peer, mate: Option<Peer>, q: Peer, now: int)
    requires p.socket.open && q.socket.wire == p.socket.wire + [Terminate]
    ensures Fate(cfg, p, mate, q, now) ==> Unanswering(cfg, p, now)
    ensures !SentOff(p, q, PairTimeout)
  {
    assert (p.socket.wire + [Terminate])[|p.socket.wire|] == Terminate;
    forall m: Peer, c | m.socket.open
      ensures SentOff(m, q, c) ==> q.socket.wire != [] && q.socket.wire[|q.socket.wire| - 1] == Close(c)
    {
    }
  }
}
