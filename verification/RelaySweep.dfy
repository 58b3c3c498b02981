/**
 * Deadlines: what one sweep at `now` leaves behind, that a second sweep at the same instant does nothing,
 * and that a pair with a sign of life on both sides is never ended for silence.
 */
module RelaySweep {
  import opened Wrappers
  import opened RelayModel
  import opened RelayInvariant
  import opened RelayRun
  import opened RelayHistory
  import opened RelayTheorems

  /** A sweep at `now` has nothing left to do about this session. */
  predicate Settled(cfg: Config, p: Peer, now: int) {
    p.state.Closed? ||
    (!GreetingOverdue(cfg, p, now) && !IdleOverdue(cfg, p, now) &&
     (!cfg.pings || now - p.lastHeardAt < cfg.keepaliveIntervalMs ||
      (if p.awaitingPong then now - p.lastPingAt < cfg.keepaliveIntervalMs else !p.socket.open)))
  }

  /** One session's share of a sweep: it is settled, everyone else is untouched or closed, and rows only go. */
  ghost predicate SweptOne(w: World, w': World, i: Id) {
    && w'.peers.Keys == w.peers.Keys
    && (forall k :: k in w.peers && k != i ==> w'.peers[k] == w.peers[k] || w'.peers[k].state.Closed?)
    && (forall t :: t in w'.entries ==> t in w.entries && w'.entries[t] == w.entries[t])
  }

  lemma TogetherIsSwept(w: World, w': World, i: Id, gone: set<Id>, rows: set<Token>)
    requires EndedTogether(w, w', gone, rows)
    ensures SweptOne(w, w', i) && forall k :: k in gone ==> w'.peers[k].state.Closed?
  {
  }

  lemma SweepOneSettles(cfg: Config, w: World, i: Id, now: int)
    requires Inv(w) && i in w.peers && cfg.keepaliveIntervalMs > 0
    ensures SweptOne(w, AfterSweepOne(cfg, w, i, now), i)
    ensures Settled(cfg, AfterSweepOne(cfg, w, i, now).peers[i], now)
  {
    var p := w.peers[i];
    if p.state.Closed? {
    } else if GreetingOverdue(cfg, p, now) {
      CloseEndsTogether(w, i, BadHello);
      TogetherIsSwept(w, AfterClose(w, i, BadHello), i, Together(w, i), RowsOf(w, i));
    } else if IdleOverdue(cfg, p, now) {
      assert SessionAgrees(w, i);
      var e := w.entries[p.token.value];
      EndSessionEndsTogether(w, p.token.value, Idle);
      TogetherIsSwept(w, AfterEndSession(w, p.token.value, Idle), i, {e.first, e.second}, {p.token.value});
    } else {
      KeepAliveSettles(cfg, w, i, now);
    }
  }

  lemma KeepAliveSettles(cfg: Config, w: World, i: Id, now: int)
    requires Inv(w) && i in w.peers && cfg.keepaliveIntervalMs > 0 && !w.peers[i].state.Closed?
    requires !GreetingOverdue(cfg, w.peers[i], now) && !IdleOverdue(cfg, w.peers[i], now)
    ensures SweptOne(w, AfterKeepAlive(cfg, w, i, now), i)
    ensures Settled(cfg, AfterKeepAlive(cfg, w, i, now).peers[i], now)
  {
    var p := w.peers[i];
    if p.awaitingPong && now - p.lastPingAt >= cfg.keepaliveIntervalMs {
      ReleaseEndsTogether(w, i, CutOff(p));
      TogetherIsSwept(w, AfterCutOff(w, i), i, Together(w, i), RowsOf(w, i));
    }
  }

  lemma SettledSweepsToItself(cfg: Config, w: World, i: Id, now: int)
    requires i in w.peers && Settled(cfg, w.peers[i], now)
    ensures AfterSweepOne(cfg, w, i, now) == w
  {
  }

  lemma {:induction false} SweptAllSettles(cfg: Config, w: World, order: seq<Id>, now: int)
    requires Inv(w) && cfg.keepaliveIntervalMs > 0
    ensures var w' := SweptAll(cfg, w, order, now);
      && Inv(w') && w'.peers.Keys == w.peers.Keys
      && (forall i :: i in order && i in w'.peers ==> Settled(cfg, w'.peers[i], now))
      && (forall i :: i in w.peers && w.peers[i].state.Closed? ==> w'.peers[i].state.Closed?)
      && (forall t :: t in w'.entries ==> t in w.entries && w'.entries[t] == w.entries[t])
  {
    if order != [] {
      var front := order[..|order| - 1];
      var i := order[|order| - 1];
      var before := SweptAll(cfg, w, front, now);
      SweptAllSettles(cfg, w, front, now);
      assert order == front + [i];
      if i in before.peers {
        SweepOneSettles(cfg, before, i, now);
        SweepOneKeepsInv(cfg, before, i, now);
      }
    }
  }

  lemma {:induction false} SettledSweepIsNothing(cfg: Config, w: World, order: seq<Id>, now: int)
    requires forall i :: i in order && i in w.peers ==> Settled(cfg, w.peers[i], now)
    ensures SweptAll(cfg, w, order, now) == w
  {
    if order != [] {
      var front := order[..|order| - 1];
      assert order == front + [order[|order| - 1]];
      SettledSweepIsNothing(cfg, w, front, now);
      if order[|order| - 1] in w.peers {
        SettledSweepsToItself(cfg, w, order[|order| - 1], now);
      }
    }
  }

  ghost predicate NobodyOverdue(cfg: Config, w: World, now: int) {
    && (forall i {:trigger w.peers[i]} :: i in w.peers ==>
          !GreetingOverdue(cfg, w.peers[i], now) && !IdleOverdue(cfg, w.peers[i], now))
    && (forall t {:trigger w.entries[t]} :: t in w.entries ==> !ParkingOverdue(cfg, w.entries[t], now))
  }

  /** One sweep at `now` leaves no live session past its greeting, parking or idle deadline. */
  lemma SweepMeetsEveryDeadline(cfg: Config, es: seq<Event>, now: int)
    requires cfg.keepaliveIntervalMs > 0
    ensures NobodyOverdue(cfg, Run(cfg, es + [SweepAt(now)]).world, now)
  {
    StoryOfEveryRun(cfg, es);
    var r := Run(cfg, es);
    SweepSettles(cfg, r, now);
    assert (es + [SweepAt(now)])[..|es + [SweepAt(now)]| - 1] == es;
  }

  lemma SweepSettles(cfg: Config, r: Relay, now: int)
    requires RelayInv(r) && cfg.keepaliveIntervalMs > 0
    ensures var w' := AfterSweep(cfg, r.world, r.connections, now);
      && NobodyOverdue(cfg, w', now)
      && (forall i :: i in r.connections && i in w'.peers ==> Settled(cfg, w'.peers[i], now))
  {
    var w1 := AfterExpiry(cfg, r.world, now);
    ExpiryKeepsInv(cfg, r.world, now);
    SweptAllSettles(cfg, w1, r.connections, now);
    var w' := AfterSweep(cfg, r.world, r.connections, now);
    forall i | i in w'.peers
      ensures !GreetingOverdue(cfg, w'.peers[i], now) && !IdleOverdue(cfg, w'.peers[i], now)
    {
      assert w1.peers[i].state.Closed? || i in r.connections;
    }
    forall t | t in w'.entries
      ensures !ParkingOverdue(cfg, w'.entries[t], now)
    {
      assert t in w1.entries;
    }
  }

  lemma SecondSweepIsNothing(cfg: Config, w: World, order: seq<Id>, now: int)
    requires NobodyOverdue(cfg, w, now) && forall i :: i in order && i in w.peers ==> Settled(cfg, w.peers[i], now)
    ensures AfterSweep(cfg, w, order, now) == w
  {
    assert Expired(cfg, w, now) == {};
    assert AfterExpiry(cfg, w, now).peers == w.peers;
    assert AfterExpiry(cfg, w, now).entries == w.entries;
    SettledSweepIsNothing(cfg, w, order, now);
  }

  /** A second sweep at the same instant changes nothing. */
  lemma SweepIsIdempotent(cfg: Config, es: seq<Event>, now: int)
    requires cfg.keepaliveIntervalMs > 0
    ensures Run(cfg, es + [SweepAt(now), SweepAt(now)]) == Run(cfg, es + [SweepAt(now)])
  {
    StoryOfEveryRun(cfg, es);
    RunsTwice(cfg, es, SweepAt(now));
    SweepStepTwice(cfg, Run(cfg, es), now);
  }

  lemma RunsTwice(cfg: Config, es: seq<Event>, e: Event)
    ensures Run(cfg, es + [e]) == Step(cfg, Run(cfg, es), e)
    ensures Run(cfg, es + [e, e]) == Step(cfg, Step(cfg, Run(cfg, es), e), e)
  {
    RunExtends(cfg, es, e);
    RunExtends(cfg, es + [e], e);
    assert es + [e, e] == (es + [e]) + [e];
  }

  lemma SweepStepTwice(cfg: Config, r: Relay, now: int)
    requires RelayInv(r) && cfg.keepaliveIntervalMs > 0
    ensures Step(cfg, Step(cfg, r, SweepAt(now)), SweepAt(now)) == Step(cfg, r, SweepAt(now))
  {
    SweepSettles(cfg, r, now);
    SecondSweepIsNothing(cfg, AfterSweep(cfg, r.world, r.connections, now), r.connections, now);
  }

  // ---------------------------------------------------------------- idleness

  /** A session that was heard from, or spliced to or from, within the idle budget. */
  predicate Lively(cfg: Config, p: Peer, now: int) {
    cfg.idleTimeoutMs == 0 || now - p.lastHeardAt < cfg.idleTimeoutMs || now - p.lastSpliceAt < cfg.idleTimeoutMs
  }

  /** Still lively, or ended for something else. */
  ghost predicate NotIdledOut(cfg: Config, p: Peer, now: int) {
    if p.state.Closed? then LastWord(p.socket.wire) != Some(Idle) else Lively(cfg, p, now)
  }

  lemma SweepOneSparesLivelyPair(cfg: Config, w: World, i: Id, j: Id, k: Id, now: int)
    requires Inv(w) && WiresOk(w) && Mates(w, i, j) && k in w.peers
    requires NotIdledOut(cfg, w.peers[i], now) && NotIdledOut(cfg, w.peers[j], now)
    ensures var w' := AfterSweepOne(cfg, w, k, now);
            Mates(w', i, j) && NotIdledOut(cfg, w'.peers[i], now) && NotIdledOut(cfg, w'.peers[j], now)
  {
    SweepOneIsHonest(cfg, w, k, now);
    var w' := AfterSweepOne(cfg, w, k, now);
    assert Follows(w.peers[i], w'.peers[i]) && Follows(w.peers[j], w'.peers[j]);
    assert Mates(w, j, i) && MatesAgree(w, i, j) && MatesAgree(w, j, i);
    SweepOneSparesHalf(cfg, w, i, j, k, now);
    SweepOneSparesHalf(cfg, w, j, i, k, now);
  }

  lemma SweepOneSparesHalf(cfg: Config, w: World, i: Id, j: Id, k: Id, now: int)
    requires Inv(w) && WiresOk(w) && Mates(w, i, j) && k in w.peers
    requires NotIdledOut(cfg, w.peers[i], now) && NotIdledOut(cfg, w.peers[j], now)
    ensures var w' := AfterSweepOne(cfg, w, k, now);
            i in w'.peers && NotIdledOut(cfg, w'.peers[i], now)
  {
    assert MatesAgree(w, i, j);
    var p := w.peers[k];
    if p.state.Closed? {
    } else if GreetingOverdue(cfg, p, now) {
      assert SessionAgrees(w, k);
      CloseEndsTogether(w, k, BadHello);
    } else if IdleOverdue(cfg, p, now) {
      IdleEndsOthers(cfg, w, i, j, k, now);
    } else {
      assert WireOk(w.peers[i]);
      KeepAliveSparesHalf(cfg, w, i, k, now);
    }
  }

  lemma IdleEndsOthers(cfg: Config, w: World, i: Id, j: Id, k: Id, now: int)
    requires Inv(w) && Mates(w, i, j) && k in w.peers && IdleOverdue(cfg, w.peers[k], now)
    requires NotIdledOut(cfg, w.peers[i], now) && NotIdledOut(cfg, w.peers[j], now)
    ensures AfterSilence(w, k).peers.Keys == w.peers.Keys && AfterSilence(w, k).peers[i] == w.peers[i]
  {
    assert SessionAgrees(w, k);
    var t := w.peers[k].token.value;
    var e := w.entries[t];
    EndSessionEndsTogether(w, t, Idle);
    HoldersCarryToken(w, t, k);
    PartnersAreMates(w, k);
    PartnersAreMates(w, w.partners[k]);
  }

  lemma KeepAliveSparesHalf(cfg: Config, w: World, i: Id, k: Id, now: int)
    requires Inv(w) && i in w.peers && k in w.peers && !w.peers[k].state.Closed? && NotIdledOut(cfg, w.peers[i], now)
    ensures var w' := AfterKeepAlive(cfg, w, k, now);
            i in w'.peers && NotIdledOut(cfg, w'.peers[i], now)
  {
    var p := w.peers[k];
    if p.awaitingPong && now - p.lastPingAt >= cfg.keepaliveIntervalMs {
      ReleaseEndsTogether(w, k, CutOff(p));
      CutOffFollows(p);
      if p.state.Paired? {
        PartnersAreMates(w, k);
        EndedIsTold(w.peers[w.partners[k]], PartnerGone);
      }
    }
  }

  lemma {:induction false} SweptAllSparesLivelyPair(cfg: Config, w: World, order: seq<Id>, i: Id, j: Id, now: int)
    requires Inv(w) && WiresOk(w) && Mates(w, i, j)
    requires NotIdledOut(cfg, w.peers[i], now) && NotIdledOut(cfg, w.peers[j], now)
    ensures var w' := SweptAll(cfg, w, order, now);
            Inv(w') && WiresOk(w') && Mates(w', i, j) &&
            NotIdledOut(cfg, w'.peers[i], now) && NotIdledOut(cfg, w'.peers[j], now)
  {
    if order != [] {
      var front := order[..|order| - 1];
      var before := SweptAll(cfg, w, front, now);
      SweptAllSparesLivelyPair(cfg, w, front, i, j, now);
      var k := order[|order| - 1];
      if k in before.peers {
        SweepOneSparesLivelyPair(cfg, before, i, j, k, now);
        SweepOneKeepsInv(cfg, before, k, now);
        SweepOneIsHonest(cfg, before, k, now);
        HonestKeepsWires(before, AfterSweepOne(cfg, before, k, now));
      }
    }
  }

  /** A pair whose halves were both heard from, or spliced, within the idle budget is never closed as idle. */
  lemma LivelyPairIsNeverIdle(cfg: Config, es: seq<Event>, i: Id, j: Id, now: int)
    requires var w := Run(cfg, es).world;
             i in w.partners && w.partners[i] == j && i in w.peers && j in w.peers &&
             Lively(cfg, w.peers[i], now) && Lively(cfg, w.peers[j], now)
    ensures var w' := Run(cfg, es + [SweepAt(now)]).world;
            i in w'.peers && j in w'.peers &&
            LastWord(w'.peers[i].socket.wire) != Some(Idle) && LastWord(w'.peers[j].socket.wire) != Some(Idle)
  {
    StoryOfEveryRun(cfg, es);
    var r := Run(cfg, es);
    var w := r.world;
    PartnersAreMates(w, i);
    assert (es + [SweepAt(now)])[..|es + [SweepAt(now)]| - 1] == es;
    var w1 := AfterExpiry(cfg, w, now);
    ExpiryKeepsInv(cfg, w, now);
    ExpiryIsHonest(cfg, w, now);
    HonestKeepsWires(w, w1);
    ExpirySparesPairs(cfg, w, now, i);
    ExpirySparesPairs(cfg, w, now, j);
    SweptAllSparesLivelyPair(cfg, w1, r.connections, i, j, now);
    NotIdledOutIsNotTold(cfg, SweptAll(cfg, w1, r.connections, now), i, now);
    NotIdledOutIsNotTold(cfg, SweptAll(cfg, w1, r.connections, now), j, now);
  }

  lemma NotIdledOutIsNotTold(cfg: Config, w: World, i: Id, now: int)
    requires WiresOk(w) && i in w.peers && NotIdledOut(cfg, w.peers[i], now)
    ensures LastWord(w.peers[i].socket.wire) != Some(Idle)
  {
    assert WireOk(w.peers[i]);
    if !w.peers[i].state.Closed? {
      LiveHasNoLastWord(w.peers[i]);
    }
  }

  lemma ExpirySparesPairs(cfg: Config, w: World, now: int, i: Id)
    requires Inv(w) && i in w.peers && w.peers[i].state.Paired?
    ensures AfterExpiry(cfg, w, now).peers[i] == w.peers[i]
  {
    if i in Expired(cfg, w, now) {
      var t :| t in w.entries && ParkingOverdue(cfg, w.entries[t], now) && w.entries[t].peer == i;
      HoldersCarryToken(w, t, i);
    }
  }
}
