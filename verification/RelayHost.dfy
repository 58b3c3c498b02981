/**
 * The container host's own loop around the core (relay/src/node/server.ts): connections come and go, a sweep
 * closes the parked peers past their budget and then visits every connection, a shutdown ends them all.
 * Each method is proved to make the step of `RelayRun` it is named after.
 */
module RelayHost {
  import opened Wrappers
  import opened RelayModel
  import opened RelayInvariant
  import opened RelayRun
  import opened RelayCore

  /** The world with some of the overdue waiters already sent away. */
  function PartlyExpired(w: World, gone: set<Id>): World {
    World(map i | i in w.peers :: if i in gone then Ended(w.peers[i], PairTimeout) else w.peers[i],
          map t | t in w.entries && !(w.entries[t].Parked? && w.entries[t].peer in gone) :: w.entries[t],
          w.partners, w.minted)
  }

  /** Sending one more waiter away: nothing but its own row goes with it, so the order does not matter. */
  lemma OneMoreExpires(w: World, gone: set<Id>, i: Id)
    requires Inv(w) && i in w.peers && w.peers[i].state.Waiting?
    ensures i in PartlyExpired(w, gone).peers
    ensures AfterClose(PartlyExpired(w, gone), i, PairTimeout) == PartlyExpired(w, gone + {i})
  {
    assert SessionAgrees(w, i);
    var w1 := PartlyExpired(w, gone);
    var w2 := PartlyExpired(w, gone + {i});
    if i in gone {
      assert gone + {i} == gone;
    } else {
      var t := w.peers[i].token.value;
      forall s | s in w.entries && w.entries[s].Parked? && w.entries[s].peer == i
        ensures s == t
      {
        assert EntryAgrees(w, s);
      }
      assert w1.peers[i := Ended(w.peers[i], PairTimeout)] == w2.peers;
      assert w1.entries - {t} == w2.entries;
      assert w1.partners - {i} == w2.partners;
    }
  }

  lemma PartlyExpiredIsSound(w: World, gone: set<Id>)
    requires Inv(w)
    ensures TableSound(PartlyExpired(w, gone))
  {
    forall t | t in PartlyExpired(w, gone).entries
      ensures RowSound(PartlyExpired(w, gone), t)
    {
      assert EntryAgrees(w, t);
    }
  }

  lemma AllExpired(cfg: Config, w: World, now: int)
    requires Inv(w)
    ensures PartlyExpired(w, Expired(cfg, w, now)) == AfterExpiry(cfg, w, now)
  {
    var gone := Expired(cfg, w, now);
    forall t | t in w.entries
      ensures w.entries[t].Parked? && w.entries[t].peer in gone <==> ParkingOverdue(cfg, w.entries[t], now)
    {
      if w.entries[t].Parked? && w.entries[t].peer in gone {
        var s :| s in w.entries && ParkingOverdue(cfg, w.entries[s], now) && w.entries[s].peer == w.entries[t].peer;
        assert EntryAgrees(w, s) && EntryAgrees(w, t);
      }
    }
    assert PartlyExpired(w, gone).entries == AfterExpiry(cfg, w, now).entries;
    assert PartlyExpired(w, gone).peers == AfterExpiry(cfg, w, now).peers;
  }

  class RelayServer {
    const config: Config
    const rendezvous: Rendezvous
    var connections: seq<PeerSession>
    var shuttingDown: bool

    ghost predicate Valid()
      reads this, rendezvous, rendezvous.registry.Values
    {
      && rendezvous.Valid() && Inv(rendezvous.World())
      && (forall i :: i in rendezvous.registry ==> rendezvous.registry[i].config == config)
      && (forall s :: s in connections ==> rendezvous.Knows(s))
    }

    ghost function State(): Relay
      reads this, rendezvous, rendezvous.registry.Values
    {
      Relay(rendezvous.World(), IdsIn(connections), shuttingDown)
    }

    constructor (config: Config)
      ensures this.config == config && Valid() && State() == START
      ensures fresh(rendezvous)
    {
      this.config := config;
      rendezvous := new Rendezvous();
      connections := [];
      shuttingDown := false;
    }

    /** An upgrade completed: a new session, greeting. */
    method Accept(id: Id, now: int) returns (session: PeerSession)
      requires Valid() && id !in rendezvous.registry && !shuttingDown
      modifies this, rendezvous`registry
      ensures Valid() && session.id == id
      ensures State() == Step(config, old(State()), Connect(id, now))
    {
      session := Attach(id, now);
      connections := connections + [session];
      assert IdsIn(connections) == IdsIn(old(connections)) + [id];
    }

    method Attach(id: Id, now: int) returns (session: PeerSession)
      requires Valid() && id !in rendezvous.registry
      modifies rendezvous`registry
      ensures Valid() && session.id == id && rendezvous.Knows(session)
      ensures rendezvous.World() == With(old(rendezvous.World()), id, Opened(config, now))
    {
      ghost var w := rendezvous.World();
      session := new PeerSession(id, config, rendezvous, now);
      assert rendezvous.World() == w;
      ConnectKeepsInv(config, w, id, now);
      rendezvous.Admit(session);
    }

    /** Overdue waiters first, then every connection in order of arrival. */
    method Sweep(now: int)
      requires Valid()
      modifies rendezvous, rendezvous.registry.Values
      ensures Valid() && State() == Step(config, old(State()), SweepAt(now))
    {
      CloseExpired(now);
      ExpiryKeepsInv(config, old(rendezvous.World()), now);
      SweepConnections(now);
    }

    /** The runtime's close event: the socket is gone, the session lets go of the table, the host of the session. */
    method SocketClosed(session: PeerSession)
      requires Valid() && rendezvous.Knows(session)
      modifies this, rendezvous, rendezvous.registry.Values
      ensures Valid() && State() == Step(config, old(State()), Hangup(session.id))
    {
      HangupIs(config, State(), session.id);
      LoseSocket(session);
      Forget(session);
    }

    method Forget(session: PeerSession)
      requires Valid()
      modifies this`connections
      ensures Valid() && State() == old(State()).(connections := Without(old(State()).connections, session.id))
    {
      WithoutSession(connections, session);
      connections := Other(connections, session);
    }

    method LoseSocket(session: PeerSession)
      requires rendezvous.Valid() && Inv(rendezvous.World()) && rendezvous.Knows(session)
      modifies rendezvous, rendezvous.registry.Values
      ensures rendezvous.Valid() && Inv(rendezvous.World()) && rendezvous.registry == old(rendezvous.registry)
      ensures rendezvous.World() == AfterSocketClosed(LineDownAt(old(rendezvous.World()), session.id), session.id)
    {
      ghost var w := rendezvous.World();
      session.socket := session.socket.(open := false);
      rendezvous.SessionTouched(session);
      QuietKeepsInv(w, session.id, session.Value());
      SocketClosedKeepsInv(LineDownAt(w, session.id), session.id);
      session.OnSocketClosed();
    }

    /**
     * The table goes before the peers do, so that none is told of another. That every live
     * session is among the connections is true after every run (`RelayTheorems.StoryOfEveryRun`).
     */
    method Close()
      requires Valid() && Watched(rendezvous.World(), IdsIn(connections))
      modifies this, rendezvous, rendezvous.registry.Values
      ensures Valid() && State() == Step(config, old(State()), Shutdown)
    {
      shuttingDown := true;
      ShutdownKeepsInv(rendezvous.World(), IdsIn(connections));
      DrainAll();
    }

    method DrainAll()
      requires Valid()
      modifies rendezvous, rendezvous.registry.Values
      ensures rendezvous.Valid() && rendezvous.registry == old(rendezvous.registry)
      ensures rendezvous.World() == AfterShutdown(old(rendezvous.World()), IdsIn(connections))
    {
      ghost var w := rendezvous.World();
      rendezvous.Clear();
      CloseAll(w);
    }

    method CloseAll(ghost w: World)
      requires rendezvous.Valid() && rendezvous.World() == w.(entries := map[], partners := map[])
      requires forall s :: s in connections ==> rendezvous.Knows(s)
      modifies rendezvous, rendezvous.registry.Values
      ensures rendezvous.Valid() && rendezvous.registry == old(rendezvous.registry)
      ensures rendezvous.World() == AfterShutdown(w, IdsIn(connections))
    {
      ghost var ids := IdsIn(connections);
      assert AfterShutdown(w, []).peers == w.peers;
      for k := 0 to |connections|
        invariant rendezvous.Valid() && rendezvous.registry == old(rendezvous.registry)
        invariant rendezvous.World() == AfterShutdown(w, ids[..k])
      {
        assert connections[k] in connections;
        OneMoreShut(w, ids, k);
        connections[k].Close(GoingAway);
      }
      assert ids[..|connections|] == ids;
    }

    method CloseExpired(now: int)
      requires Valid()
      modifies rendezvous, rendezvous.registry.Values
      ensures rendezvous.Valid() && rendezvous.registry == old(rendezvous.registry)
      ensures rendezvous.World() == AfterExpiry(config, old(rendezvous.World()), now)
    {
      ghost var w := rendezvous.World();
      var expired := rendezvous.ExpiredWaiters(config, now);
      NobodyExpiredYet(w);
      for k := 0 to |expired|
        invariant rendezvous.Valid() && rendezvous.registry == old(rendezvous.registry)
        invariant rendezvous.World() == PartlyExpired(w, IdSet(expired[..k]))
      {
        IdSetExtends(expired, k);
        ExpiredIsWaiting(config, w, now, expired[k].id);
        CloseOne(expired[k], w, IdSet(expired[..k]));
      }
      assert expired[..|expired|] == expired;
      AllExpired(config, w, now);
    }

    method CloseOne(peer: PeerSession, ghost w: World, ghost gone: set<Id>)
      requires rendezvous.Valid() && rendezvous.Knows(peer)
      requires Inv(w) && peer.id in w.peers && w.peers[peer.id].state.Waiting?
      requires rendezvous.World() == PartlyExpired(w, gone)
      modifies rendezvous, rendezvous.registry.Values
      ensures rendezvous.Valid() && rendezvous.registry == old(rendezvous.registry)
      ensures rendezvous.World() == PartlyExpired(w, gone + {peer.id})
    {
      OneMoreExpires(w, gone, peer.id);
      PartlyExpiredIsSound(w, gone);
      peer.Close(PairTimeout);
    }

    method SweepOne(session: PeerSession, now: int)
      requires rendezvous.Valid() && Inv(rendezvous.World()) && rendezvous.Knows(session) && session.config == config
      modifies rendezvous, rendezvous.registry.Values
      ensures rendezvous.Valid() && Inv(rendezvous.World()) && rendezvous.registry == old(rendezvous.registry)
      ensures rendezvous.World() == AfterSweepOne(config, old(rendezvous.World()), session.id, now)
      ensures session.id in old(rendezvous.World()).peers
    {
      SweepOneKeepsInv(config, rendezvous.World(), session.id, now);
      session.Sweep(now);
    }

    method SweepConnections(now: int)
      requires Valid()
      modifies rendezvous, rendezvous.registry.Values
      ensures Valid() && rendezvous.registry == old(rendezvous.registry)
      ensures rendezvous.World() == SweptAll(config, old(rendezvous.World()), IdsIn(connections), now)
    {
      ghost var w := rendezvous.World();
      ghost var ids := IdsIn(connections);
      for k := 0 to |connections|
        invariant rendezvous.Valid() && Inv(rendezvous.World()) && rendezvous.registry == old(rendezvous.registry)
        invariant rendezvous.World() == SweptAll(config, w, ids[..k], now)
      {
        assert connections[k] in connections;
        SweepOne(connections[k], now);
        SweptAllExtends(config, w, ids, k, now);
      }
      assert ids[..|connections|] == ids;
    }
  }

  lemma HangupIs(cfg: Config, r: Relay, i: Id)
    requires i in r.world.peers
    ensures Step(cfg, r, Hangup(i)) == Relay(AfterSocketClosed(LineDownAt(r.world, i), i), Without(r.connections, i), r.shuttingDown)
  {
  }

  lemma IdSetExtends(sessions: seq<PeerSession>, k: nat)
    requires k < |sessions|
    ensures IdSet(sessions[..k + 1]) == IdSet(sessions[..k]) + {sessions[k].id}
    ensures sessions[k] in sessions && sessions[k].id in IdSet(sessions)
  {
    assert sessions[..k + 1] == sessions[..k] + [sessions[k]];
    assert sessions[k] in sessions;
  }

  lemma NobodyExpiredYet(w: World)
    ensures PartlyExpired(w, {}) == w
  {
    assert PartlyExpired(w, {}).peers == w.peers && PartlyExpired(w, {}).entries == w.entries;
  }

  function Other(sessions: seq<PeerSession>, s: PeerSession): seq<PeerSession> {
    if sessions == [] then []
    else if sessions[0].id == s.id then Other(sessions[1..], s)
    else [sessions[0]] + Other(sessions[1..], s)
  }

  lemma WithoutSession(sessions: seq<PeerSession>, s: PeerSession)
    ensures IdsIn(Other(sessions, s)) == Without(IdsIn(sessions), s.id)
    ensures forall r :: r in Other(sessions, s) ==> r in sessions
  {
    if sessions != [] {
      WithoutSession(sessions[1..], s);
      assert IdsIn(sessions)[1..] == IdsIn(sessions[1..]);
    }
  }

  /** With the table empty, closing one peer tells no other anything. */
  lemma OneMoreShut(w: World, ids: seq<Id>, k: nat)
    requires k < |ids| && ids[k] in w.peers
    ensures TableSound(AfterShutdown(w, ids[..k]))
    ensures AfterClose(AfterShutdown(w, ids[..k]), ids[k], GoingAway) == AfterShutdown(w, ids[..k + 1])
  {
    var w1 := AfterShutdown(w, ids[..k]);
    assert ids[..k + 1] == ids[..k] + [ids[k]];
    CloseUntabled(w1, ids[k], GoingAway);
    assert EndedAt(w1, ids[k], GoingAway).peers == AfterShutdown(w, ids[..k + 1]).peers;
  }

  lemma SweptAllExtends(cfg: Config, w: World, ids: seq<Id>, k: nat, now: int)
    requires k < |ids|
    ensures SweptAll(cfg, w, ids[..k + 1], now)
         == var before := SweptAll(cfg, w, ids[..k], now);
            if ids[k] in before.peers then AfterSweepOne(cfg, before, ids[k], now) else before
  {
    assert ids[..k + 1][..k] == ids[..k];
  }

  lemma ExpiredIsWaiting(cfg: Config, w: World, now: int, i: Id)
    requires Inv(w) && i in Expired(cfg, w, now)
    ensures i in w.peers && w.peers[i].state.Waiting?
  {
    var t :| t in w.entries && ParkingOverdue(cfg, w.entries[t], now) && w.entries[t].peer == i;
    HoldersCarryToken(w, t, i);
  }
}
