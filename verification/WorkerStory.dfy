/**
 * What the peers of a Durable Object can tell over whole runs: that it forgets when they said hello, and who is ever sent
 * away to make room.
 */
module WorkerStory {
  import opened Wrappers
  import opened RelayModel
  import opened RelayInvariant
  import opened RelayRun
  import opened RelayHistory
  import opened RelayTheorems
  import opened WorkerModel
  import opened WorkerRun

  // ---------------------------------------------------------------- the hello forgotten

  /** A host that forgets nothing, the instant of a hello included. */
  function RunRemembering(cfg: Config, home: Home, es: seq<HostEvent>): Host {
    if es == [] then EMPTY else Applied(cfg, home, RunRemembering(cfg, home, es[..|es| - 1]), es[|es| - 1])
  }

  /** At this event no peer's wait is over counted from its arrival and not from its hello, or the other way round. */
  ghost predicate ClocksAgree(cfg: Config, h: Host, e: HostEvent) {
    e.Alarm? ==> SameOverdue(cfg, Reparked(h.world), h.world, e.at)
  }

  ghost predicate ClocksAgreeAt(cfg: Config, home: Home, es: seq<HostEvent>, n: nat)
    requires n < |es|
  {
    ClocksAgree(cfg, RunRemembering(cfg, home, es[..n]), es[n])
  }

  ghost predicate ClocksAlwaysAgree(cfg: Config, home: Home, es: seq<HostEvent>) {
    forall n: nat {:trigger ClocksAgreeAt(cfg, home, es, n)} :: n < |es| ==> ClocksAgreeAt(cfg, home, es, n)
  }

  lemma {:induction false} RememberingKeepsHostInv(cfg: Config, home: Home, es: seq<HostEvent>)
    ensures HostInv(home, RunRemembering(cfg, home, es))
  {
    if es != [] {
      RememberingKeepsHostInv(cfg, home, es[..|es| - 1]);
      AppliedKeepsHostInv(cfg, home, RunRemembering(cfg, home, es[..|es| - 1]), es[|es| - 1]);
    }
  }

  /** The sockets of two hosts, their sessions and everything put on them. */
  ghost predicate SameOutside(g: Host, h: Host) {
    g.order == h.order && g.world.peers == h.world.peers && g.world.minted == h.world.minted
  }

  function RebuiltWorld(h: Host): World {
    Rebuilt(h.order, h.world.peers, h.world.minted)
  }

  lemma AlikeThen(u: World, v: World, w: World)
    requires Alike(u, v) && Alike(v, w)
    ensures Alike(u, w)
  {
    forall t | t in u.entries
      ensures SameRow(u.entries[t], w.entries[t])
    {
      assert SameRow(u.entries[t], v.entries[t]) && SameRow(v.entries[t], w.entries[t]);
    }
  }

  lemma ReparkedAlike(w: World)
    ensures Alike(Reparked(w), w)
  {
  }

  lemma RebuiltIsLike(home: Home, h: Host)
    requires HostInv(home, h)
    ensures Alike(RebuiltWorld(h), h.world) && SameClocks(RebuiltWorld(h), Reparked(h.world))
  {
    RebuiltIsAlike(h.world, h.order);
    ReparkedAlike(h.world);
    AlikeThen(RebuiltWorld(h), Reparked(h.world), h.world);
  }

  lemma SameClocksSameOverdue(cfg: Config, u: World, v: World, w: World, at: int)
    requires Alike(u, v) && SameClocks(u, v) && v.entries.Keys == w.entries.Keys
    ensures SameOverdue(cfg, u, w, at) <==> SameOverdue(cfg, v, w, at)
  {
    forall t | t in u.entries
      ensures ParkingOverdue(cfg, u.entries[t], at) <==> ParkingOverdue(cfg, v.entries[t], at)
    {
      assert SameRow(u.entries[t], v.entries[t]) && SameClock(u.entries[t], v.entries[t]);
    }
  }

  lemma ForgetfulStep(cfg: Config, home: Home, h: Host, e: HostEvent)
    requires HostInv(home, h) && ClocksAgree(cfg, h, e)
    ensures SameOutside(Applied(cfg, home, Host(RebuiltWorld(h), h.order), e), Applied(cfg, home, h, e))
  {
    RebuiltIsAlike(h.world, h.order);
    RebuiltIsLike(home, h);
    if e.Alarm? {
      SameClocksSameOverdue(cfg, RebuiltWorld(h), Reparked(h.world), h.world, e.at);
    }
    AppliedAlike(cfg, home, RebuiltWorld(h), h.world, h.order, e);
  }

  lemma {:induction false} ForgettingWhileClocksAgree(cfg: Config, home: Home, es: seq<HostEvent>)
    requires ClocksAlwaysAgree(cfg, home, es)
    ensures SameOutside(RunForgetting(cfg, home, es), RunRemembering(cfg, home, es))
  {
    if es != [] {
      var before := es[..|es| - 1];
      forall n: nat | n < |before|
        ensures ClocksAgreeAt(cfg, home, before, n)
      {
        assert before[..n] == es[..n];
        assert ClocksAgreeAt(cfg, home, es, n);
      }
      ForgettingWhileClocksAgree(cfg, home, before);
      RememberingKeepsHostInv(cfg, home, before);
      assert ClocksAgreeAt(cfg, home, es, |before|);
      ForgetfulStep(cfg, home, RunRemembering(cfg, home, before), es[|before|]);
    }
  }

  // ---------------------------------------------------------------- and noticed when they do not

  /** Without pings a sweep leaves whoever is parked as it is. */
  lemma SweepOneSparesParked(cfg: Config, w: World, i: Id, k: Id, now: int)
    requires Inv(w) && i in w.peers && w.peers[i].state.Waiting? && k in w.peers && !cfg.pings
    ensures i in AfterSweepOne(cfg, w, k, now).peers && AfterSweepOne(cfg, w, k, now).peers[i] == w.peers[i]
  {
    var p := w.peers[k];
    if p.state.Closed? {
    } else if GreetingOverdue(cfg, p, now) {
      CloseEndsTogether(w, k, BadHello);
    } else if IdleOverdue(cfg, p, now) {
      assert SessionAgrees(w, k);
      EndSessionEndsTogether(w, p.token.value, Idle);
      assert EntryAgrees(w, p.token.value);
    }
  }

  lemma {:induction false} SweepSparesParked(cfg: Config, w: World, order: seq<Id>, i: Id, now: int)
    requires Inv(w) && i in w.peers && w.peers[i].state.Waiting? && !cfg.pings
    ensures i in SweptAll(cfg, w, order, now).peers && SweptAll(cfg, w, order, now).peers[i].state.Waiting?
  {
    if order != [] {
      var front, k := order[..|order| - 1], order[|order| - 1];
      SweepSparesParked(cfg, w, front, i, now);
      SweptAllKeepsInv(cfg, w, front, now);
      if k in SweptAll(cfg, w, front, now).peers {
        SweepOneSparesParked(cfg, SweptAll(cfg, w, front, now), i, k, now);
      }
    }
  }

  /** A sweep closes a parked peer exactly when its wait is over. */
  lemma ParkedFate(cfg: Config, w: World, order: seq<Id>, t: Token, now: int)
    requires Inv(w) && t in w.entries && w.entries[t].Parked? && !cfg.pings
    ensures var i := w.entries[t].peer;
            && i in AfterSweep(cfg, w, order, now).peers
            && (AfterSweep(cfg, w, order, now).peers[i].state.Closed? <==> ParkingOverdue(cfg, w.entries[t], now))
  {
    var i := w.entries[t].peer;
    var w1 := AfterExpiry(cfg, w, now);
    assert EntryAgrees(w, t);
    ExpiryKeepsInv(cfg, w, now);
    if ParkingOverdue(cfg, w.entries[t], now) {
      assert i in Expired(cfg, w, now) && w1.peers[i].state.Closed?;
      SweptAllIsHonest(cfg, w1, order, now);
      assert Follows(w1.peers[i], SweptAll(cfg, w1, order, now).peers[i]);
    } else {
      if i in Expired(cfg, w, now) {
        var s :| s in w.entries && ParkingOverdue(cfg, w.entries[s], now) && w.entries[s].peer == i;
        HoldersCarryToken(w, s, i);
        HoldersCarryToken(w, t, i);
      }
      SweepSparesParked(cfg, w1, order, i, now);
    }
  }

  /** When the clocks disagree at a sweep, somebody is sent away by one host and not by the other. */
  lemma DisagreementShows(cfg: Config, home: Home, h: Host, e: HostEvent)
    requires HostInv(home, h) && !ClocksAgree(cfg, h, e) && !cfg.pings
    ensures !SameOutside(Applied(cfg, home, Host(RebuiltWorld(h), h.order), e), Applied(cfg, home, h, e))
  {
    RebuiltIsAlike(h.world, h.order);
    RebuiltIsLike(home, h);
    SameClocksSameOverdue(cfg, RebuiltWorld(h), Reparked(h.world), h.world, e.at);
    AlikeKeepsInv(RebuiltWorld(h), h.world);
    var t := ClockDiffers(cfg, RebuiltWorld(h), h.world, e.at);
    var v, w := HeardAll(RebuiltWorld(h), e.heard), HeardAll(h.world, e.heard);
    HeardKeepsInv(RebuiltWorld(h), e.heard);
    HeardKeepsInv(h.world, e.heard);
    ParkedFate(cfg, v, h.order, t, e.at);
    ParkedFate(cfg, w, h.order, t, e.at);
  }

  lemma ClockDiffers(cfg: Config, v: World, w: World, at: int) returns (t: Token)
    requires Alike(v, w) && !SameOverdue(cfg, v, w, at)
    ensures t in v.entries && t in w.entries && v.entries[t].Parked? && w.entries[t].Parked? && v.entries[t].peer == w.entries[t].peer
    ensures ParkingOverdue(cfg, v.entries[t], at) != ParkingOverdue(cfg, w.entries[t], at)
  {
    t :| t in v.entries && t in w.entries && ParkingOverdue(cfg, v.entries[t], at) != ParkingOverdue(cfg, w.entries[t], at);
    assert SameRow(v.entries[t], w.entries[t]);
  }

  ghost predicate AgreesAt(cfg: Config, home: Home, es: seq<HostEvent>, n: nat)
    requires n <= |es|
  {
    SameOutside(RunForgetting(cfg, home, es[..n]), RunRemembering(cfg, home, es[..n]))
  }

  ghost predicate AlwaysAgrees(cfg: Config, home: Home, es: seq<HostEvent>) {
    forall n: nat {:trigger AgreesAt(cfg, home, es, n)} :: n <= |es| ==> AgreesAt(cfg, home, es, n)
  }

  /**
   * The object, which sends no pings, is at every point as one that remembers each hello, exactly when no alarm falls
   * where a parked peer's wait is over from its arrival and not from its hello, or the other way round.
   */
  lemma {:induction false} HelloIsForgottenExactly(cfg: Config, home: Home, es: seq<HostEvent>)
    requires !cfg.pings
    ensures AlwaysAgrees(cfg, home, es) <==> ClocksAlwaysAgree(cfg, home, es)
  {
    if ClocksAlwaysAgree(cfg, home, es) {
      forall n: nat | n <= |es|
        ensures AgreesAt(cfg, home, es, n)
      {
        ClocksAgreeBefore(cfg, home, es, n);
        ForgettingWhileClocksAgree(cfg, home, es[..n]);
      }
    }
    if AlwaysAgrees(cfg, home, es) {
      forall n: nat | n < |es|
        ensures ClocksAgreeAt(cfg, home, es, n)
      {
        assert AgreesAt(cfg, home, es, n) && AgreesAt(cfg, home, es, n + 1);
        assert es[..n + 1][..n] == es[..n];
        RememberingKeepsHostInv(cfg, home, es[..n]);
        if !ClocksAgreeAt(cfg, home, es, n) {
          DisagreementShows(cfg, home, RunRemembering(cfg, home, es[..n]), es[n]);
        }
      }
    }
  }

  lemma ClocksAgreeBefore(cfg: Config, home: Home, es: seq<HostEvent>, n: nat)
    requires n <= |es| && ClocksAlwaysAgree(cfg, home, es)
    ensures ClocksAlwaysAgree(cfg, home, es[..n])
  {
    forall m: nat | m < n
      ensures ClocksAgreeAt(cfg, home, es[..n], m)
    {
      assert es[..n][..m] == es[..m];
      assert ClocksAgreeAt(cfg, home, es, m);
    }
  }

  // ---------------------------------------------------------------- who is sent away to make room

  predicate ToldCapacity(p: Peer) {
    LastWord(p.socket.wire) == Some(Capacity)
  }

  /** Nobody is told "capacity" now who was not before. */
  ghost predicate NobodyDisplaced(w: World, w': World) {
    forall i {:trigger w'.peers[i]} :: i in w'.peers && ToldCapacity(w'.peers[i]) ==> i in w.peers && ToldCapacity(w.peers[i])
  }

  ghost predicate Undisplaced(w: World, w': World) {
    WiresOk(w') && NobodyDisplaced(w, w')
  }

  lemma HonestDisplacesNobody(w: World, w': World)
    requires Inv(w) && WiresOk(w) && Honest(w, w')
    ensures Undisplaced(w, w')
  {
    HonestKeepsWires(w, w');
    forall i | i in w'.peers && ToldCapacity(w'.peers[i])
      ensures ToldCapacity(w.peers[i])
    {
      assert Follows(w.peers[i], w'.peers[i]) && WireOk(w'.peers[i]) && SessionAgrees(w, i);
      if !w'.peers[i].state.Closed? {
        LiveHasNoLastWord(w'.peers[i]);
      } else if !w.peers[i].state.Closed? {
        TruthIsNotCapacity(w, w', i);
      }
    }
  }

  lemma TruthIsNotCapacity(w: World, w': World, i: Id)
    requires Inv(w) && Honest(w, w') && i in w.peers && !w.peers[i].state.Closed? && w'.peers[i].state.Closed?
    ensures !ToldCapacity(w'.peers[i])
  {
    assert SessionAgrees(w, i);
    if w.peers[i].sessionId.Some? {
      PartnersAreMates(w, i);
      assert PairTold(w', i, w.partners[i]);
    } else {
      assert LoneTold(w'.peers[i]);
    }
  }

  lemma LiveIsNotDisplaced(w: World, w': World, i: Id)
    requires i in w'.peers && WireOk(w'.peers[i]) && !w'.peers[i].state.Closed?
    ensures !ToldCapacity(w'.peers[i])
  {
    LiveHasNoLastWord(w'.peers[i]);
  }

  lemma PairingDisplacesNobody(w: World, w': World, i: Id, j: Id)
    requires WiresOk(w) && PairsUp(w, w', i, j)
    ensures Undisplaced(w, w')
  {
    forall k | k in w'.peers
      ensures WireOk(w'.peers[k])
    {
      assert WireOk(w.peers[k]);
    }
    LiveIsNotDisplaced(w, w', i);
    LiveIsNotDisplaced(w, w', j);
  }

  lemma SplicingDisplacesNobody(w: World, w': World, j: Id, payload: Payload)
    requires WiresOk(w) && SplicedTo(w, w', j, payload)
    ensures Undisplaced(w, w')
  {
    forall k | k in w'.peers
      ensures WireOk(w'.peers[k])
      ensures ToldCapacity(w'.peers[k]) ==> ToldCapacity(w.peers[k])
    {
      assert WireOk(w.peers[k]);
      if k != j {
        assert Follows(w.peers[k], w'.peers[k]);
      }
      if !w'.peers[k].state.Closed? {
        LiveIsNotDisplaced(w, w', k);
      } else if k == j {
        assert w'.peers[j].socket.open;
      }
    }
  }

  lemma HeardDisplacesNobody(w: World, heard: map<Id, int>)
    requires WiresOk(w)
    ensures Undisplaced(w, HeardAll(w, heard))
  {
    forall k | k in w.peers
      ensures WireOk(HeardAll(w, heard).peers[k])
    {
      assert WireOk(w.peers[k]);
    }
  }

  lemma SayingDisplacesNobody(cfg: Config, home: Home, w: World, i: Id, text: TextFrame, at: int)
    requires Inv(w) && WiresOk(w) && i in w.peers
    ensures Undisplaced(w, AfterSay(cfg, home, w, i, text, at))
  {
    if w.peers[i].state.Greeting? && text.HelloText? && !Names(home, text.token) {
      CloseIsHonest(w, i, BadHello);
      HonestDisplacesNobody(w, AfterClose(w, i, BadHello));
    } else {
      TextEffect(cfg, w, i, text, at);
      if MakesPair(w, i, text) {
        PairingDisplacesNobody(w, AfterText(cfg, w, i, text, at), i, w.entries[text.token].peer);
      } else {
        HonestDisplacesNobody(w, AfterText(cfg, w, i, text, at));
      }
    }
  }

  lemma SendingDisplacesNobody(cfg: Config, w: World, i: Id, payload: Payload, at: int)
    requires Inv(w) && WiresOk(w) && i in w.peers
    ensures Undisplaced(w, AfterBinary(cfg, w, i, payload, at))
  {
    var w' := AfterBinary(cfg, w, i, payload, at);
    BinaryEffect(cfg, w, i, payload, at);
    if i in w.partners && SplicedTo(w, w', w.partners[i], payload) {
      SplicingDisplacesNobody(w, w', w.partners[i], payload);
    } else {
      HonestDisplacesNobody(w, w');
    }
  }

  lemma GoingDisplacesNobody(w: World, i: Id)
    requires Inv(w) && WiresOk(w) && i in w.peers
    ensures Undisplaced(w, AfterGone(w, i))
  {
    assert WireOk(w.peers[i]);
    HangupIsHonest(w, i);
    var w1 := AfterSocketClosed(LineDownAt(w, i), i);
    HonestDisplacesNobody(w, w1);
    forall k | k in Detached(w1, i).peers
      ensures WireOk(Detached(w1, i).peers[k])
    {
      assert WireOk(w1.peers[k]) && w1.peers[k] == w1.peers[k];
    }
    forall k | k in Detached(w1, i).peers && ToldCapacity(Detached(w1, i).peers[k])
      ensures k in w.peers && ToldCapacity(w.peers[k])
    {
      assert ToldCapacity(w1.peers[k]);
    }
  }

  lemma ThenDisplacesNobody(a: World, b: World, c: World)
    requires NobodyDisplaced(a, b) && NobodyDisplaced(b, c)
    ensures NobodyDisplaced(a, c)
  {
    forall i | i in c.peers && ToldCapacity(c.peers[i])
      ensures i in a.peers && ToldCapacity(a.peers[i])
    {
      assert ToldCapacity(b.peers[i]);
    }
  }

  /** No event but an arrival tells anybody the object is full. */
  lemma OthersDisplaceNobody(cfg: Config, home: Home, h: Host, e: HostEvent)
    requires HostInv(home, h) && WiresOk(h.world) && !e.Arrive?
    ensures Undisplaced(h.world, Applied(cfg, home, h, e).world)
  {
    var w := h.world;
    match e
    case Say(i, text, at, heard) =>
      if i in w.peers {
        HeardKeepsInv(w, heard);
        HeardDisplacesNobody(w, heard);
        SayingDisplacesNobody(cfg, home, HeardAll(w, heard), i, text, at);
        ThenDisplacesNobody(w, HeardAll(w, heard), AfterSay(cfg, home, HeardAll(w, heard), i, text, at));
      }
    case Send(i, payload, at, heard) =>
      if i in w.peers {
        HeardKeepsInv(w, heard);
        HeardDisplacesNobody(w, heard);
        SendingDisplacesNobody(cfg, HeardAll(w, heard), i, payload, at);
        ThenDisplacesNobody(w, HeardAll(w, heard), AfterBinary(cfg, HeardAll(w, heard), i, payload, at));
      }
    case Gone(i, heard) =>
      if i in w.peers {
        HeardKeepsInv(w, heard);
        HeardDisplacesNobody(w, heard);
        GoingDisplacesNobody(HeardAll(w, heard), i);
        ThenDisplacesNobody(w, HeardAll(w, heard), AfterGone(HeardAll(w, heard), i));
      }
    case Alarm(at, heard) =>
      HeardKeepsInv(w, heard);
      HeardDisplacesNobody(w, heard);
      SweepIsHonest(cfg, HeardAll(w, heard), h.order, at);
      HonestDisplacesNobody(HeardAll(w, heard), AfterSweep(cfg, HeardAll(w, heard), h.order, at));
      ThenDisplacesNobody(w, HeardAll(w, heard), AfterSweep(cfg, HeardAll(w, heard), h.order, at));
    case Down(i) =>
      if i in w.peers {
        OneLives(w, i, w.peers[i].(socket := w.peers[i].socket.(open := false)));
        HonestDisplacesNobody(w, LineDownAt(w, i));
      }
  }

  /** The one greeting longest of three, told nothing before, and no party to any pairing. */
  ghost predicate Longest(h: Host, i: Id) {
    && i in Greeters(h) && |Greeters(h)| == MAX_GREETING_SOCKETS
    && (forall j :: j in Greeters(h) ==> h.world.peers[i].openedAt <= h.world.peers[j].openedAt)
    && h.world.peers[i].token.None? && h.world.peers[i].sessionId.None? && LastWord(h.world.peers[i].socket.wire).None?
  }

  lemma ArrivalDisplacesLongest(cfg: Config, home: Home, h: Host, i: Id, at: int)
    requires HostInv(home, h) && WiresOk(h.world)
    ensures var w' := AfterArrival(cfg, h, i, at).world;
            && WiresOk(w')
            && forall k :: k in w'.peers && ToldCapacity(w'.peers[k]) ==> k in h.world.peers && (ToldCapacity(h.world.peers[k]) || Longest(h, k))
  {
    var w, w' := h.world, AfterArrival(cfg, h, i, at).world;
    forall k | k in w'.peers
      ensures WireOk(w'.peers[k])
      ensures ToldCapacity(w'.peers[k]) ==> k in w.peers && (ToldCapacity(w.peers[k]) || Longest(h, k))
    {
      if k in w.peers {
        assert WireOk(w.peers[k]) && SessionAgrees(w, k);
        EndedFollows(w.peers[k], Capacity);
        if w'.peers[k] != w.peers[k] {
          OnlyTheLongestSilentIsDisplaced(h, k);
          LiveHasNoLastWord(w.peers[k]);
        }
      }
    }
  }

  lemma {:induction false} KeepingKeepsWires(cfg: Config, home: Home, es: seq<HostEvent>)
    ensures WiresOk(RunKeeping(cfg, home, es).world)
  {
    if es != [] {
      var h := RunKeeping(cfg, home, es[..|es| - 1]);
      var e := es[|es| - 1];
      KeepingKeepsWires(cfg, home, es[..|es| - 1]);
      KeepingKeepsHostInv(cfg, home, es[..|es| - 1]);
      ReparkedKeepsHostInv(home, h);
      StepTellsLongest(cfg, home, h.(world := Reparked(h.world)), e);
    }
  }

  lemma StepTellsLongest(cfg: Config, home: Home, h: Host, e: HostEvent)
    requires HostInv(home, h) && WiresOk(h.world)
    ensures var w' := Applied(cfg, home, h, e).world;
            && WiresOk(w')
            && forall k :: k in w'.peers && ToldCapacity(w'.peers[k]) ==>
                 k in h.world.peers && (ToldCapacity(h.world.peers[k]) || (e.Arrive? && Longest(h, k)))
  {
    if e.Arrive? {
      ArrivalDisplacesLongest(cfg, home, h, e.i, e.at);
    } else {
      OthersDisplaceNobody(cfg, home, h, e);
    }
  }

  /**
   * Over any run: whoever was told "capacity" was, when an arrival had it told, the one greeting longest of three, and
   * had neither said a hello the object took nor been told anything else.
   */
  lemma {:induction false} OnlyTheLongestSilentIsToldCapacity(cfg: Config, home: Home, es: seq<HostEvent>, i: Id) returns (n: nat)
    requires i in RunForgetting(cfg, home, es).world.peers && ToldCapacity(RunForgetting(cfg, home, es).world.peers[i])
    ensures n < |es| && es[n].Arrive? && Longest(RunForgetting(cfg, home, es[..n]), i)
  {
    ForgettingIsUnobservable(cfg, home, es);
    var before, e := es[..|es| - 1], es[|es| - 1];
    var h := RunKeeping(cfg, home, before);
    KeepingKeepsWires(cfg, home, before);
    KeepingKeepsHostInv(cfg, home, before);
    ReparkedKeepsHostInv(home, h);
    StepTellsLongest(cfg, home, h.(world := Reparked(h.world)), e);
    ForgettingIsUnobservable(cfg, home, before);
    if ToldCapacity(h.world.peers[i]) {
      n := OnlyTheLongestSilentIsToldCapacity(cfg, home, before, i);
      assert es[..n] == before[..n];
    } else {
      n := |before|;
    }
  }
}
