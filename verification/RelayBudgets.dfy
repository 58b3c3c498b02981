/**
 * The per-connection budgets over whole runs: they never leave their range, and a peer that kept quiet for a
 * second can always send one more frame of any size the cap allows.
 */
module RelayBudgets {
  import opened Wrappers
  import opened RateLimit
  import opened RelayModel
  import opened RelayRun

  ghost predicate InBudget(cfg: Config, p: Peer) {
    InRange(p.frameBudget, cfg.maxFramesPerSecond as real) && InRange(p.byteBudget, cfg.maxBytesPerSecond as real)
  }

  ghost predicate AllInBudget(cfg: Config, w: World) {
    forall i {:trigger InBudget(cfg, w.peers[i])} :: i in w.peers ==> InBudget(cfg, w.peers[i])
  }

  /** Nobody's budget was touched. */
  ghost predicate Uncharged(w: World, w': World) {
    && w'.peers.Keys == w.peers.Keys
    && (forall i :: i in w.peers ==>
          w'.peers[i].frameBudget == w.peers[i].frameBudget && w'.peers[i].byteBudget == w.peers[i].byteBudget)
  }

  lemma UnchargedStaysInBudget(cfg: Config, w: World, w': World)
    requires AllInBudget(cfg, w) && Uncharged(w, w')
    ensures AllInBudget(cfg, w')
  {
    forall i | i in w'.peers
      ensures InBudget(cfg, w'.peers[i])
    {
      assert InBudget(cfg, w.peers[i]);
    }
  }

  lemma ChargedStaysInRange(b: BucketState, rate: real, cost: real, at: int)
    requires InRange(b, rate) && cost >= 0.0
    ensures InRange(Charged(b, rate, rate, cost, at).state, rate)
  {
    AccruedNonNegative(Forward(b.lastRefill, at), rate);
  }

  lemma ChargingStaysInBudget(cfg: Config, p: Peer, size: nat, at: int)
    requires InBudget(cfg, p)
    ensures InBudget(cfg, ChargedFrame(cfg, p, at).1) && InBudget(cfg, ChargedBytes(cfg, p, size, at).1)
  {
    ChargedStaysInRange(p.frameBudget, cfg.maxFramesPerSecond as real, 1.0, at);
    ChargedStaysInRange(p.byteBudget, cfg.maxBytesPerSecond as real, size as real, at);
  }

  lemma VerdictsStayInBudget(cfg: Config, p: Peer, text: TextFrame, size: nat, at: int)
    requires InBudget(cfg, p)
    ensures InBudget(cfg, TextVerdict(cfg, p, text, at).1) && InBudget(cfg, BinaryVerdict(cfg, p, size, at).1)
  {
    ChargingStaysInBudget(cfg, p, size, at);
    var charged := ChargedFrame(cfg, p, at).1;
    ChargingStaysInBudget(cfg, charged, text.Bytes(), at);
    ChargingStaysInBudget(cfg, charged, size, at);
  }

  predicate SameBudgets(p: Peer, q: Peer) {
    q.frameBudget == p.frameBudget && q.byteBudget == p.byteBudget
  }

  lemma OneUncharged(w: World, i: Id, q: Peer)
    requires i in w.peers && SameBudgets(w.peers[i], q)
    ensures Uncharged(w, With(w, i, q))
  {
  }

  lemma LeavingIsUncharged(w: World, t: Token, i: Id)
    ensures Uncharged(w, AfterLeave(w, t, i))
  {
    if t in w.entries && w.entries[t].Spliced? && w.entries[t].Other(i) in w.peers {
      OneUncharged(w, w.entries[t].Other(i), Ended(w.peers[w.entries[t].Other(i)], PartnerGone));
    }
  }

  /** A session that ends, however it ends, charges nobody for it. */
  lemma ReleasingIsUncharged(w: World, i: Id, q: Peer)
    requires i in w.peers && SameBudgets(w.peers[i], q)
    ensures Uncharged(w, AfterRelease(With(w, i, q), i))
  {
    OneUncharged(w, i, q);
    if q.token.Some? {
      LeavingIsUncharged(With(w, i, q), q.token.value, i);
    }
  }

  lemma ClosingIsUncharged(w: World, i: Id, code: CloseCode)
    requires i in w.peers
    ensures Uncharged(w, AfterClose(w, i, code))
  {
    ReleasingIsUncharged(w, i, Ended(w.peers[i], code));
  }

  lemma EndingIsUncharged(w: World, t: Token, code: CloseCode)
    requires t in w.entries && w.entries[t].Spliced?
    ensures Uncharged(w, AfterEndSession(w, t, code))
  {
    var d, e := Dropped(w, t), w.entries[t];
    EndedAtIsUncharged(d, e.first, code);
    EndedAtIsUncharged(EndedAt(d, e.first, code), e.second, code);
  }

  lemma EndedAtIsUncharged(w: World, i: Id, code: CloseCode)
    ensures Uncharged(w, EndedAt(w, i, code))
  {
    if i in w.peers {
      OneUncharged(w, i, Ended(w.peers[i], code));
    }
  }

  lemma JoiningIsUncharged(w: World, t: Token, i: Id, at: int)
    requires i in w.peers
    ensures Uncharged(w, AfterJoin(w, t, i, at))
  {
    if t in w.entries && w.entries[t].Spliced? {
      EndingIsUncharged(w, t, Superseded);
    }
  }

  lemma HelloIsUncharged(w: World, i: Id, text: TextFrame, at: int)
    requires i in w.peers
    ensures Uncharged(w, AfterHello(w, i, text, at))
  {
    if text.HelloText? {
      JoiningIsUncharged(With(w, i, w.peers[i].(token := Some(text.token))), text.token, i, at);
    } else {
      ClosingIsUncharged(w, i, BadHello);
    }
  }

  lemma SilenceIsUncharged(w: World, i: Id)
    requires i in w.peers
    ensures Uncharged(w, AfterSilence(w, i))
  {
    var p := w.peers[i];
    if p.token.Some? && p.token.value in w.entries && w.entries[p.token.value].Spliced? {
      EndingIsUncharged(w, p.token.value, Idle);
    }
    ClosingIsUncharged(w, i, Idle);
  }

  lemma KeepingAliveIsUncharged(cfg: Config, w: World, i: Id, at: int)
    requires i in w.peers
    ensures Uncharged(w, AfterKeepAlive(cfg, w, i, at))
  {
    var p := w.peers[i];
    ReleasingIsUncharged(w, i, CutOff(p));
    OneUncharged(w, i, p.(awaitingPong := true, lastPingAt := at, socket := Put(p.socket, Ping)));
  }

  lemma SweepOneIsUncharged(cfg: Config, w: World, i: Id, at: int)
    requires i in w.peers
    ensures Uncharged(w, AfterSweepOne(cfg, w, i, at))
  {
    ClosingIsUncharged(w, i, BadHello);
    SilenceIsUncharged(w, i);
    KeepingAliveIsUncharged(cfg, w, i, at);
  }

  lemma {:induction false} SweepIsUncharged(cfg: Config, w: World, order: seq<Id>, at: int)
    ensures Uncharged(w, SweptAll(cfg, w, order, at))
  {
    if order != [] {
      var front, i := order[..|order| - 1], order[|order| - 1];
      SweepIsUncharged(cfg, w, front, at);
      if i in SweptAll(cfg, w, front, at).peers {
        SweepOneIsUncharged(cfg, SweptAll(cfg, w, front, at), i, at);
      }
    }
  }

  lemma JudgingStaysInBudget(cfg: Config, w: World, i: Id, verdict: (Verdict, Peer))
    requires AllInBudget(cfg, w) && i in w.peers && InBudget(cfg, verdict.1)
    ensures AllInBudget(cfg, With(w, i, verdict.1)) && AllInBudget(cfg, AfterVerdict(w, i, verdict))
  {
    var w1 := With(w, i, verdict.1);
    forall k | k in w1.peers
      ensures InBudget(cfg, w1.peers[k])
    {
      assert k in w.peers ==> InBudget(cfg, w.peers[k]);
    }
    if verdict.0.Refuse? {
      ClosingIsUncharged(w1, i, verdict.0.code);
      UnchargedStaysInBudget(cfg, w1, AfterClose(w1, i, verdict.0.code));
    }
  }

  lemma TextStaysInBudget(cfg: Config, w: World, i: Id, text: TextFrame, at: int)
    requires AllInBudget(cfg, w) && i in w.peers
    ensures AllInBudget(cfg, AfterText(cfg, w, i, text, at))
  {
    var p := w.peers[i].(lastHeardAt := at);
    assert InBudget(cfg, w.peers[i]);
    if p.state.Greeting? {
      var w1 := With(w, i, p);
      OneUncharged(w, i, p);
      HelloIsUncharged(w1, i, text, at);
      UnchargedStaysInBudget(cfg, w, w1);
      UnchargedStaysInBudget(cfg, w1, AfterHello(w1, i, text, at));
    } else if !p.state.Closed? {
      VerdictsStayInBudget(cfg, p, text, 0, at);
      JudgingStaysInBudget(cfg, w, i, TextVerdict(cfg, p, text, at));
    }
  }

  lemma BinaryStaysInBudget(cfg: Config, w: World, i: Id, payload: Payload, at: int)
    requires AllInBudget(cfg, w) && i in w.peers
    ensures AllInBudget(cfg, AfterBinary(cfg, w, i, payload, at))
  {
    var p := w.peers[i].(lastHeardAt := at);
    assert InBudget(cfg, w.peers[i]);
    if !p.state.Closed? {
      VerdictsStayInBudget(cfg, p, PingText, |payload|, at);
      var verdict := BinaryVerdict(cfg, p, |payload|, at);
      JudgingStaysInBudget(cfg, w, i, verdict);
      if verdict.0.Allow? {
        var w1 := With(w, i, verdict.1);
        SplicingIsUncharged(cfg, w1, i, payload, at);
        UnchargedStaysInBudget(cfg, w1, AfterSplice(cfg, w1, i, payload, at));
      }
    }
  }

  lemma SplicingIsUncharged(cfg: Config, w: World, i: Id, payload: Payload, at: int)
    requires i in w.peers
    ensures Uncharged(w, AfterSplice(cfg, w, i, payload, at))
  {
    ClosingIsUncharged(w, i, GoingAway);
    if i in w.partners && w.partners[i] in w.peers {
      ClosingIsUncharged(w, w.partners[i], SlowConsumer);
    }
  }

  lemma StepStaysInBudget(cfg: Config, r: Relay, e: Event)
    requires AllInBudget(cfg, r.world)
    ensures AllInBudget(cfg, WorldAfter(cfg, r, e))
  {
    var w := r.world;
    match e
    case Connect(i, at) =>
      ArrivalStaysInBudget(cfg, w, i, at);
    case TextIn(i, text, at) =>
      if i in w.peers {
        TextStaysInBudget(cfg, w, i, text, at);
      }
    case BinaryIn(i, payload, at) =>
      if i in w.peers {
        BinaryStaysInBudget(cfg, w, i, payload, at);
      }
    case SweepAt(at) =>
      SweepIsUncharged(cfg, AfterExpiry(cfg, w, at), r.connections, at);
      UnchargedStaysInBudget(cfg, w, WorldAfter(cfg, r, e));
    case Hangup(i) =>
      if i in w.peers {
        HangupIsUncharged(w, i);
        UnchargedStaysInBudget(cfg, w, WorldAfter(cfg, r, e));
      }
    case _ =>
      UnchargedStaysInBudget(cfg, w, WorldAfter(cfg, r, e));
  }

  lemma HangupIsUncharged(w: World, i: Id)
    requires i in w.peers
    ensures Uncharged(w, AfterSocketClosed(LineDownAt(w, i), i))
  {
    var w1 := LineDownAt(w, i);
    ReleasingIsUncharged(w1, i, w1.peers[i].(state := Closed));
  }

  lemma ArrivalStaysInBudget(cfg: Config, w: World, i: Id, at: int)
    requires AllInBudget(cfg, w)
    ensures AllInBudget(cfg, With(w, i, Opened(cfg, at)))
  {
    var w' := With(w, i, Opened(cfg, at));
    forall k | k in w'.peers
      ensures InBudget(cfg, w'.peers[k])
    {
      assert k != i ==> InBudget(cfg, w.peers[k]);
    }
  }

  /** After every run every session's two budgets are between empty and one second's worth. */
  lemma {:induction false} BudgetsStayInRange(cfg: Config, es: seq<Event>)
    ensures AllInBudget(cfg, Run(cfg, es).world)
  {
    if es != [] {
      var before, e := es[..|es| - 1], es[|es| - 1];
      BudgetsStayInRange(cfg, before);
      StepStaysInBudget(cfg, Run(cfg, before), e);
    }
  }

  /**
   * Over any run: a paired session quiet for a second is allowed a content frame exactly when the frame is within the
   * size cap and the byte rate. The configuration insists that the rate be no less than the cap, so that the cap decides.
   */
  lemma QuietSecondBuysAFrame(cfg: Config, es: seq<Event>, i: Id, size: nat, at: int)
    requires cfg.maxFramesPerSecond >= 1
    requires var w := Run(cfg, es).world;
             i in w.peers && w.peers[i].state.Paired? &&
             at - w.peers[i].frameBudget.lastRefill >= 1000 && at - w.peers[i].byteBudget.lastRefill >= 1000
    ensures BinaryVerdict(cfg, Run(cfg, es).world.peers[i], size, at).0.Allow? <==>
              size <= cfg.maxFrameBytes && size <= cfg.maxBytesPerSecond
  {
    BudgetsStayInRange(cfg, es);
    var p := Run(cfg, es).world.peers[i];
    var rate := cfg.maxBytesPerSecond as real;
    assert InBudget(cfg, p);
    FrameFitsAfterASecond(p.frameBudget, cfg.maxFramesPerSecond as real, 1.0, 1.0, at);
    assert ChargedFrame(cfg, p, at).1.byteBudget == p.byteBudget;
    if size <= cfg.maxBytesPerSecond {
      FrameFitsAfterASecond(p.byteBudget, rate, size as real, size as real, at);
    } else {
      assert Refilled(p.byteBudget, rate, rate, at).tokens <= rate < size as real;
    }
  }
}
