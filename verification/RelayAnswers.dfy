/**
 * The relay's answer to every frame a live session can send, over every run, read off the sockets: which log gains
 * what, who is closed for which reason, who pays, and that nobody else is touched.
 */
module RelayAnswers {
  import opened Wrappers
  import opened RateLimit
  import opened RelayModel
  import opened RelayInvariant
  import opened RelayRun
  import opened RelayHistory
  import opened RelayTheorems

  // ---------------------------------------------------------------- what can be read off a socket

  /** What a socket is given when its session is sent away: the reason in-band and by the close, or the cut of a dead line. */
  function Farewell(open: bool, code: CloseCode): seq<Wire> {
    if open then [Text(ClosingFrame(code)), Close(code)] else [Terminate]
  }

  predicate Hears(p: Peer, q: Peer, items: seq<Wire>) {
    q.socket.wire == p.socket.wire + items
  }

  predicate SentOff(p: Peer, q: Peer, code: CloseCode) {
    q.state.Closed? && !q.socket.open && Hears(p, q, Farewell(p.socket.open, code))
  }

  ghost predicate OthersUntouched(w: World, w': World, involved: set<Id>) {
    w'.peers.Keys == w.peers.Keys && forall k :: k in w.peers && k !in involved ==> w'.peers[k] == w.peers[k]
  }

  ghost predicate RowGone(w: World, w': World, i: Id) {
    && (forall t :: t in w'.entries <==> t in w.entries && !w.entries[t].Holds(i))
    && (forall t :: t in w'.entries ==> w'.entries[t] == w.entries[t])
  }

  /** `i` is sent off for `code`, its row goes, its partner is told it was left; nobody else hears or loses anything. */
  ghost predicate EndsFor(w: World, w': World, i: Id, code: CloseCode) {
    && i in w.peers && w'.peers.Keys == w.peers.Keys
    && SentOff(w.peers[i], w'.peers[i], code) && RowGone(w, w', i)
    && (if i in w.partners
        then var j := w.partners[i];
          j in w.peers && SentOff(w.peers[j], w'.peers[j], PartnerGone) && OthersUntouched(w, w', {i, j})
        else OthersUntouched(w, w', {i}))
  }

  /** The session's two budgets both have room for one more frame of this size. */
  predicate Affordable(cfg: Config, p: Peer, bytes: nat, at: int) {
    var frames, volume := cfg.maxFramesPerSecond as real, cfg.maxBytesPerSecond as real;
    && Charged(p.frameBudget, frames, frames, 1.0, at).ok
    && Charged(p.byteBudget, volume, volume, bytes as real, at).ok
  }

  /** What a frame costs its sender, and that it was heard; nothing else about the session. */
  function Paying(cfg: Config, p: Peer, bytes: nat, at: int): Peer {
    var frames, volume := cfg.maxFramesPerSecond as real, cfg.maxBytesPerSecond as real;
    p.(lastHeardAt := at,
       frameBudget := Charged(p.frameBudget, frames, frames, 1.0, at).state,
       byteBudget := Charged(p.byteBudget, volume, volume, bytes as real, at).state)
  }

  function Gaining(p: Peer, items: seq<Wire>): Peer {
    p.(socket := p.socket.(wire := p.socket.wire + items))
  }

  /** The frame crosses: `i` pays for it and hears nothing, `j`'s open socket gains exactly it, and both stay as they are. */
  ghost predicate Crosses(cfg: Config, w: World, w': World, i: Id, j: Id, payload: Payload, at: int) {
    && i in w.peers && j in w.peers && i != j && OthersUntouched(w, w', {i, j})
    && w'.entries == w.entries && w'.partners == w.partners && w.peers[i].state.Paired? && w.peers[j].state.Paired?
    && w'.peers[i] == Paying(cfg, w.peers[i], |payload|, at).(lastSpliceAt := at, framesIn := w.peers[i].framesIn + 1)
    && w'.peers[j] == if !w.peers[j].socket.open then w.peers[j]
                      else Gaining(w.peers[j], [Binary(payload)]).(lastSpliceAt := at, framesOut := w.peers[j].framesOut + 1)
  }

  /** A ping is answered on its own socket, paid for, and noticed by nobody else. */
  ghost predicate Ponged(cfg: Config, w: World, w': World, i: Id, bytes: nat, at: int) {
    && i in w.peers && OthersUntouched(w, w', {i}) && w'.entries == w.entries && w'.partners == w.partners
    && w'.peers[i] == Gaining(Paying(cfg, w.peers[i], bytes, at), [Text(PongFrame)])
  }

  // ---------------------------------------------------------------- one event

  lemma HungUpSays(s: Socket, code: CloseCode)
    ensures HungUp(s, code).wire == s.wire + Farewell(s.open, code) && !HungUp(s, code).open
  {
  }

  lemma EndedIsSentOff(p: Peer, code: CloseCode)
    requires !p.state.Closed?
    ensures SentOff(p, Ended(p, code), code)
  {
    HungUpSays(p.socket, code);
  }

  /** Closing a session that a frame was just charged to, whatever else was noted about it. */
  lemma ClosingEndsFor(w: World, i: Id, q: Peer, code: CloseCode)
    requires Inv(w) && i in w.peers && !w.peers[i].state.Closed?
    requires Quiet(w.peers[i], q) && q.socket == w.peers[i].socket
    ensures EndsFor(w, AfterClose(With(w, i, q), i, code), i, code)
  {
    var w1 := With(w, i, q);
    var w' := AfterClose(w1, i, code);
    QuietKeepsInv(w, i, q);
    CloseEndsTogether(w1, i, code);
    EndedIsSentOff(q, code);
    assert SessionAgrees(w, i);
    if i in w.partners {
      PartnersAreMates(w, i);
      EndedIsSentOff(w.peers[w.partners[i]], PartnerGone);
    }
    RowsGoWith(w, w1, w', i);
  }

  lemma RowsGoWith(w: World, w1: World, w': World, i: Id)
    requires w1.entries == w.entries && w'.entries == w1.entries - RowsOf(w1, i)
    ensures RowGone(w, w', i)
  {
  }

  /** The slow partner is the one closed; the sender hears that it was left. */
  lemma SlowPartnerEndsFor(w: World, i: Id, q: Peer, j: Id)
    requires Inv(w) && i in w.partners && w.partners[i] == j && i in w.peers
    requires Quiet(w.peers[i], q) && q.socket == w.peers[i].socket
    ensures j in w.peers && EndsFor(w, AfterClose(With(w, i, q), j, SlowConsumer), j, SlowConsumer)
  {
    PartnersAreMates(w, i);
    var w1 := With(w, i, q);
    var w' := AfterClose(w1, j, SlowConsumer);
    QuietKeepsInv(w, i, q);
    CloseEndsTogether(w1, j, SlowConsumer);
    EndedIsSentOff(w.peers[j], SlowConsumer);
    EndedIsSentOff(q, PartnerGone);
    RowsGoWith(w, w1, w', j);
  }

  lemma SplicingCrosses(cfg: Config, w: World, i: Id, q: Peer, payload: Payload, at: int)
    requires Inv(w) && i in w.peers && w.peers[i].state.Paired? && q == Paying(cfg, w.peers[i], |payload|, at)
    ensures i in w.partners && w.partners[i] in w.peers
    ensures var j := w.partners[i];
            var w' := AfterSplice(cfg, With(w, i, q), i, payload, at);
            if w.peers[j].socket.backlog > cfg.maxBufferedBytes then EndsFor(w, w', j, SlowConsumer)
            else Crosses(cfg, w, w', i, j, payload, at)
  {
    assert SessionAgrees(w, i);
    PartnersAreMates(w, i);
    var j := w.partners[i];
    if w.peers[j].socket.backlog > cfg.maxBufferedBytes {
      SlowPartnerEndsFor(w, i, q, j);
    } else {
      CarriedIs(w, i, q, j, payload, at);
    }
  }

  /** A refusal of content, by its reason; nothing for a frame let through. */
  function ContentRefusal(cfg: Config, p: Peer, size: nat, at: int): Option<CloseCode> {
    if p.state.Greeting? then Some(Protocol)
    else if size > cfg.maxFrameBytes then Some(TooLarge)
    else if !Affordable(cfg, p, size, at) then Some(RateLimited)
    else if p.state.Waiting? then Some(Protocol)
    else None
  }

  lemma BinaryVerdictIs(cfg: Config, p: Peer, size: nat, at: int)
    requires !p.state.Closed?
    ensures var (verdict, q) := BinaryVerdict(cfg, p, size, at);
            Quiet(p, q) && q.socket == p.socket &&
            match ContentRefusal(cfg, p, size, at)
            case Some(code) => verdict == Refuse(code)
            case None => verdict.Allow? && p.state.Paired? && (p.lastHeardAt == at ==> q == Paying(cfg, p, size, at))
  {
  }

  lemma BinaryIsAnswered(cfg: Config, w: World, i: Id, payload: Payload, at: int)
    requires Inv(w) && i in w.peers && !w.peers[i].state.Closed?
    ensures var w' := AfterBinary(cfg, w, i, payload, at);
            match ContentRefusal(cfg, w.peers[i], |payload|, at)
            case Some(code) => EndsFor(w, w', i, code)
            case None =>
              i in w.partners && w.partners[i] in w.peers &&
              if w.peers[w.partners[i]].socket.backlog > cfg.maxBufferedBytes
              then EndsFor(w, w', w.partners[i], SlowConsumer)
              else Crosses(cfg, w, w', i, w.partners[i], payload, at)
  {
    var p := w.peers[i].(lastHeardAt := at);
    var (verdict, q) := BinaryVerdict(cfg, p, |payload|, at);
    BinaryVerdictIs(cfg, p, |payload|, at);
    if verdict.Refuse? {
      ClosingEndsFor(w, i, q, verdict.code);
    } else {
      SplicingCrosses(cfg, w, i, q, payload, at);
    }
  }

  /** A text frame after the hello, by the reason it ends the session for; nothing for a ping that is answered. */
  function TextRefusal(cfg: Config, p: Peer, text: TextFrame, at: int): Option<CloseCode> {
    var frames := cfg.maxFramesPerSecond as real;
    if !Charged(p.frameBudget, frames, frames, 1.0, at).ok then Some(RateLimited)
    else if text.Bytes() > cfg.maxFrameBytes then Some(TooLarge)
    else if !Affordable(cfg, p, text.Bytes(), at) then Some(RateLimited)
    else if !text.PingText? then Some(Protocol)
    else if p.socket.backlog > cfg.maxBufferedBytes then Some(SlowConsumer)
    else None
  }

  lemma TextVerdictIs(cfg: Config, p: Peer, text: TextFrame, at: int)
    ensures var (verdict, q) := TextVerdict(cfg, p, text, at);
            Quiet(p, q) &&
            match TextRefusal(cfg, p, text, at)
            case Some(code) => verdict == Refuse(code) && q.socket == p.socket
            case None => verdict.Allow? && (p.lastHeardAt == at ==> q == Gaining(Paying(cfg, p, text.Bytes(), at), [Text(PongFrame)]))
  {
  }

  lemma LaterTextIsAnswered(cfg: Config, w: World, i: Id, text: TextFrame, at: int)
    requires Inv(w) && i in w.peers && (w.peers[i].state.Waiting? || w.peers[i].state.Paired?)
    ensures var w' := AfterText(cfg, w, i, text, at);
            match TextRefusal(cfg, w.peers[i], text, at)
            case Some(code) => EndsFor(w, w', i, code)
            case None => Ponged(cfg, w, w', i, text.Bytes(), at)
  {
    var p := w.peers[i].(lastHeardAt := at);
    var (verdict, q) := TextVerdict(cfg, p, text, at);
    TextVerdictIs(cfg, p, text, at);
    if verdict.Refuse? {
      ClosingEndsFor(w, i, q, verdict.code);
    }
  }

  // ---------------------------------------------------------------- over runs

  /**
   * Content, after any run. A frame its sender may send and can pay for crosses to the partner it has, and lands on the
   * partner's open socket; if the partner has stopped reading, that partner is closed for it and the sender told it was
   * left. Any other frame ends its sender, for the first of the reasons that is true of it.
   */
  lemma ContentIsAnswered(cfg: Config, es: seq<Event>, i: Id, payload: Payload, at: int)
    requires i in Run(cfg, es).world.peers && !Run(cfg, es).world.peers[i].state.Closed?
    ensures var w := Run(cfg, es).world;
            var w' := Run(cfg, es + [BinaryIn(i, payload, at)]).world;
            match ContentRefusal(cfg, w.peers[i], |payload|, at)
            case Some(code) => EndsFor(w, w', i, code)
            case None =>
              i in w.partners && w.partners[i] in w.peers &&
              if w.peers[w.partners[i]].socket.backlog > cfg.maxBufferedBytes
              then EndsFor(w, w', w.partners[i], SlowConsumer)
              else Crosses(cfg, w, w', i, w.partners[i], payload, at)
  {
    StoryOfEveryRun(cfg, es);
    RunExtends(cfg, es, BinaryIn(i, payload, at));
    BinaryIsAnswered(cfg, Run(cfg, es).world, i, payload, at);
  }

  /** What the relay is for: a frame within the limits reaches a partner that reads, whole, and costs nobody the session. */
  lemma AllowedFrameArrives(cfg: Config, es: seq<Event>, i: Id, j: Id, payload: Payload, at: int)
    requires var w := Run(cfg, es).world;
             i in w.peers && j in w.peers && i in w.partners && w.partners[i] == j &&
             w.peers[j].socket.open && w.peers[j].socket.backlog <= cfg.maxBufferedBytes &&
             |payload| <= cfg.maxFrameBytes && Affordable(cfg, w.peers[i], |payload|, at)
    ensures var w := Run(cfg, es).world;
            var w' := Run(cfg, es + [BinaryIn(i, payload, at)]).world;
            && i in w'.peers && j in w'.peers && w'.peers[i].state.Paired? && w'.peers[j].state.Paired?
            && i in w'.partners && w'.partners[i] == j && w'.peers[j].socket.open
            && Content(w'.peers[j].socket.wire) == Content(w.peers[j].socket.wire) + [payload]
            && w'.peers[i].socket.wire == w.peers[i].socket.wire
  {
    StoryOfEveryRun(cfg, es);
    PartnersAreMates(Run(cfg, es).world, i);
    ContentIsAnswered(cfg, es, i, payload, at);
    PutOne(Run(cfg, es).world.peers[j].socket, Binary(payload));
  }

  /** A partner past the backlog bound gets no more content: it is told it is too slow, and the sender that it is gone. */
  lemma SlowPartnerIsSentOff(cfg: Config, es: seq<Event>, i: Id, j: Id, payload: Payload, at: int)
    requires var w := Run(cfg, es).world;
             i in w.peers && j in w.peers && i in w.partners && w.partners[i] == j &&
             w.peers[j].socket.backlog > cfg.maxBufferedBytes &&
             |payload| <= cfg.maxFrameBytes && Affordable(cfg, w.peers[i], |payload|, at)
    ensures var w := Run(cfg, es).world;
            var w' := Run(cfg, es + [BinaryIn(i, payload, at)]).world;
            && i in w'.peers && j in w'.peers
            && SentOff(w.peers[j], w'.peers[j], SlowConsumer) && SentOff(w.peers[i], w'.peers[i], PartnerGone)
            && (forall k :: k in w.peers ==> k in w'.peers && Content(w'.peers[k].socket.wire) == Content(w.peers[k].socket.wire))
  {
    StoryOfEveryRun(cfg, es);
    PartnersAreMates(Run(cfg, es).world, i);
    ContentIsAnswered(cfg, es, i, payload, at);
    EndingAddsNoContent(Run(cfg, es).world, Run(cfg, es + [BinaryIn(i, payload, at)]).world, j, SlowConsumer);
  }

  lemma EndingAddsNoContent(w: World, w': World, i: Id, code: CloseCode)
    requires EndsFor(w, w', i, code)
    ensures forall k :: k in w.peers ==> k in w'.peers && Content(w'.peers[k].socket.wire) == Content(w.peers[k].socket.wire)
  {
    FarewellIsNoContent(w.peers[i].socket.wire, w.peers[i].socket.open, code);
    if i in w.partners {
      FarewellIsNoContent(w.peers[w.partners[i]].socket.wire, w.peers[w.partners[i]].socket.open, PartnerGone);
    }
  }

  lemma FarewellIsNoContent(wire: seq<Wire>, open: bool, code: CloseCode)
    ensures Content(wire + Farewell(open, code)) == Content(wire)
  {
    HungUpEnds(Socket(open, 0, wire), code);
    HungUpSays(Socket(open, 0, wire), code);
  }

  /**
   * Text after the hello, after any run. A ping within its means is answered by one pong and nothing else; every other
   * text frame ends the session for the first of the reasons that is true of it.
   */
  lemma TextIsAnswered(cfg: Config, es: seq<Event>, i: Id, text: TextFrame, at: int)
    requires i in Run(cfg, es).world.peers
    requires Run(cfg, es).world.peers[i].state.Waiting? || Run(cfg, es).world.peers[i].state.Paired?
    ensures var w := Run(cfg, es).world;
            var w' := Run(cfg, es + [TextIn(i, text, at)]).world;
            match TextRefusal(cfg, w.peers[i], text, at)
            case Some(code) => EndsFor(w, w', i, code)
            case None => text.PingText? && Ponged(cfg, w, w', i, text.Bytes(), at)
  {
    StoryOfEveryRun(cfg, es);
    RunExtends(cfg, es, TextIn(i, text, at));
    LaterTextIsAnswered(cfg, Run(cfg, es).world, i, text, at);
  }

  // ---------------------------------------------------------------- coming, going and shutting down

  /** A peer that arrives is greeting, with an open socket nothing was put on and both budgets full; nobody else notices. */
  lemma ArrivalIsLetIn(cfg: Config, es: seq<Event>, i: Id, at: int)
    requires i !in Run(cfg, es).world.peers && !Run(cfg, es).shuttingDown
    ensures var w, w' := Run(cfg, es).world, Run(cfg, es + [Connect(i, at)]).world;
            && w'.peers.Keys == w.peers.Keys + {i} && (forall k :: k in w.peers ==> w'.peers[k] == w.peers[k])
            && w'.entries == w.entries && w'.partners == w.partners
            && w'.peers[i].state.Greeting? && w'.peers[i].socket == Socket(true, 0, []) && !w'.peers[i].awaitingPong
            && w'.peers[i].openedAt == at && w'.peers[i].lastHeardAt == at
            && w'.peers[i].frameBudget == BucketState(cfg.maxFramesPerSecond as real, at)
            && w'.peers[i].byteBudget == BucketState(cfg.maxBytesPerSecond as real, at)
  {
    RunExtends(cfg, es, Connect(i, at));
  }

  /** A live session whose socket ends is over and hears nothing; its partner is told it was left, and nobody else notices. */
  lemma HangupIsAnswered(cfg: Config, es: seq<Event>, i: Id)
    requires i in Run(cfg, es).world.peers && !Run(cfg, es).world.peers[i].state.Closed?
    ensures var w, w' := Run(cfg, es).world, Run(cfg, es + [Hangup(i)]).world;
            && w'.peers.Keys == w.peers.Keys && RowGone(w, w', i)
            && w'.peers[i].state.Closed? && !w'.peers[i].socket.open && Hears(w.peers[i], w'.peers[i], [])
            && (if i in w.partners
                then var j := w.partners[i];
                  j in w.peers && SentOff(w.peers[j], w'.peers[j], PartnerGone) && OthersUntouched(w, w', {i, j})
                else OthersUntouched(w, w', {i}))
  {
    StoryOfEveryRun(cfg, es);
    RunExtends(cfg, es, Hangup(i));
    HangingUpEnds(Run(cfg, es).world, i);
  }

  lemma HangingUpEnds(w: World, i: Id)
    requires Inv(w) && i in w.peers && !w.peers[i].state.Closed?
    ensures var w' := AfterSocketClosed(LineDownAt(w, i), i);
            && w'.peers.Keys == w.peers.Keys && RowGone(w, w', i)
            && w'.peers[i].state.Closed? && !w'.peers[i].socket.open && Hears(w.peers[i], w'.peers[i], [])
            && (if i in w.partners
                then var j := w.partners[i];
                  j in w.peers && SentOff(w.peers[j], w'.peers[j], PartnerGone) && OthersUntouched(w, w', {i, j})
                else OthersUntouched(w, w', {i}))
  {
    var w1 := LineDownAt(w, i);
    var q := w1.peers[i].(state := Closed);
    QuietKeepsInv(w, i, w1.peers[i]);
    ReleaseEndsTogether(w1, i, q);
    RowsGoWith(w, w1, AfterRelease(With(w1, i, q), i), i);
    assert SessionAgrees(w, i);
    if i in w.partners {
      PartnersAreMates(w, i);
      EndedIsSentOff(w.peers[w.partners[i]], PartnerGone);
    }
  }

  /** A relay that shuts down tells every live session so, and empties its table. */
  lemma ShutdownIsAnswered(cfg: Config, es: seq<Event>, i: Id)
    requires i in Run(cfg, es).world.peers
    ensures var w, w' := Run(cfg, es).world, Run(cfg, es + [Shutdown]).world;
            && i in w'.peers && w'.entries == map[] && w'.partners == map[]
            && (if w.peers[i].state.Closed? then w'.peers[i] == w.peers[i] else SentOff(w.peers[i], w'.peers[i], GoingAway))
  {
    StoryOfEveryRun(cfg, es);
    RunExtends(cfg, es, Shutdown);
    if !Run(cfg, es).world.peers[i].state.Closed? {
      EndedIsSentOff(Run(cfg, es).world.peers[i], GoingAway);
    }
  }
}
