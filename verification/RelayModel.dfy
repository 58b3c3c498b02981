/**
 * What the relay's pairing protocol does, as functions on plain values.
 *
 * The code is re-entrant: closing a peer leaves the table, leaving closes the partner, and
 * the partner leaves again (relay/src/core/peerSession.ts:283-294, relay/src/core/rendezvous.ts:81-102).
 * The functions here are flat: each event is a handful of map updates and nothing calls back.
 * `RelayCore` has the classes with the code's own calls and proves that they do exactly this.
 *
 * Time is an argument of every event. A socket is an open flag, a backlog and the log of
 * everything the relay put on it.
 */
module RelayModel {
  import opened Wrappers
  import opened RateLimit

  type Id = nat
  type Token = string
  type Payload = seq<Byte>

  /** relay/src/core/protocol.ts: the reasons a peer is given, by their names. */
  datatype CloseCode =
    | BadHello | PartnerGone | Superseded | SlowConsumer | RateLimited | Idle
    | PairTimeout | Capacity | Protocol | TooLarge | GoingAway
  {
    /** The number on the wire: 4000-4999 is the private range of section 7.4.2 of RFC 6455. */
    function Number(): nat {
      match this
      case BadHello => 4000
      case PartnerGone => 4001
      case Superseded => 4002
      case SlowConsumer => 4003
      case RateLimited => 4004
      case Idle => 4005
      case PairTimeout => 4006
      case Capacity => 4007
      case Protocol => 4008
      case TooLarge => 1009
      case GoingAway => 1001
    }
  }

  datatype Control =
    | WaitingFrame
    | PairedFrame(session: nat, initiator: bool)
    | ClosingFrame(code: CloseCode)
    | PongFrame

  /** One thing the relay did to a socket. */
  datatype Wire =
    | Text(frame: Control)
    | Binary(payload: Payload)
    | Close(code: CloseCode)
    | Terminate
    | Ping

  /** A text frame as the relay reads it: what `parseHello` makes of it, and its UTF-8 length. */
  datatype TextFrame =
    | HelloText(token: Token, bytes: nat)
    | PingText
    | OtherText(bytes: nat)
  {
    function Bytes(): nat {
      match this
      case HelloText(_, bytes) => bytes
      case PingText => 12
      case OtherText(bytes) => bytes
    }
  }

  datatype Socket = Socket(open: bool, backlog: nat, wire: seq<Wire>)

  datatype Status = Greeting | Waiting | Paired | Closed

  /** Everything one `PeerSession` is. */
  datatype Peer = Peer(
    openedAt: int,
    state: Status,
    token: Option<Token>,
    pairRef: Option<nat>,
    sessionId: Option<nat>,
    lastSpliceAt: int,
    lastHeardAt: int,
    lastPingAt: int,
    awaitingPong: bool,
    framesIn: nat,
    framesOut: nat,
    frameBudget: BucketState,
    byteBudget: BucketState,
    socket: Socket)

  datatype Entry =
    | Parked(pairRef: nat, peer: Id, since: int)
    | Spliced(pairRef: nat, sessionId: nat, first: Id, second: Id, pairedAt: int)
  {
    predicate Holds(i: Id) {
      match this
      case Parked(_, peer, _) => peer == i
      case Spliced(_, _, first, second, _) => first == i || second == i
    }

    function Other(i: Id): Id
      requires Spliced?
    {
      if first == i then second else first
    }
  }

  /** The sessions of one host and its pairing table. `minted` stands for the random references given out. */
  datatype World = World(
    peers: map<Id, Peer>,
    entries: map<Token, Entry>,
    partners: map<Id, Id>,
    minted: nat)

  datatype Config = Config(
    maxFrameBytes: nat,
    maxFramesPerSecond: nat,
    maxBytesPerSecond: nat,
    maxBufferedBytes: nat,
    helloTimeoutMs: nat,
    pairTimeoutMs: nat,
    idleTimeoutMs: nat,
    keepaliveIntervalMs: nat,
    pings: bool)

  // ---------------------------------------------------------------- one session

  function Put(s: Socket, item: Wire): Socket {
    s.(wire := s.wire + [item])
  }

  function Notified(s: Socket, frame: Control): Socket {
    if s.open then Put(s, Text(frame)) else s
  }

  /** A close with a code: told in-band first, then by the handshake; a dead socket is cut off instead. */
  function HungUp(s: Socket, code: CloseCode): Socket {
    if s.open then Put(Notified(s, ClosingFrame(code)), Close(code)).(open := false) else Put(s, Terminate)
  }

  function Opened(cfg: Config, now: int): Peer {
    Peer(now, Greeting, None, None, None, now, now, 0, false, 0, 0,
         BucketState(cfg.maxFramesPerSecond as real, now),
         BucketState(cfg.maxBytesPerSecond as real, now),
         Socket(true, 0, []))
  }

  /** Ending a live session by code; a closed one hears nothing. */
  function Ended(p: Peer, code: CloseCode): Peer {
    if p.state.Closed? then p else p.(state := Closed, socket := HungUp(p.socket, code))
  }

  function MarkedPaired(p: Peer, session: nat, initiator: bool, now: int): Peer {
    p.(state := Paired, sessionId := Some(session), lastSpliceAt := now,
       socket := Notified(p.socket, PairedFrame(session, initiator)))
  }

  function CountedIn(p: Peer, now: int): Peer {
    p.(framesIn := p.framesIn + 1, lastSpliceAt := now)
  }

  function Delivered(p: Peer, payload: Payload, now: int): Peer {
    if p.socket.open
    then p.(framesOut := p.framesOut + 1, lastSpliceAt := now, socket := Put(p.socket, Binary(payload)))
    else p
  }

  function ChargedFrame(cfg: Config, p: Peer, now: int): (bool, Peer) {
    var rate := cfg.maxFramesPerSecond as real;
    var taken := Charged(p.frameBudget, rate, rate, 1.0, now);
    (taken.ok, p.(frameBudget := taken.state))
  }

  function ChargedBytes(cfg: Config, p: Peer, bytes: nat, now: int): (bool, Peer) {
    var rate := cfg.maxBytesPerSecond as real;
    var taken := Charged(p.byteBudget, rate, rate, bytes as real, now);
    (taken.ok, p.(byteBudget := taken.state))
  }

  function Later(a: int, b: int): int {
    if a >= b then a else b
  }

  // ---------------------------------------------------------------- the table

  function With(w: World, i: Id, p: Peer): World {
    w.(peers := w.peers[i := p])
  }

  function EndedAt(w: World, i: Id, code: CloseCode): World {
    if i in w.peers then With(w, i, Ended(w.peers[i], code)) else w
  }

  function Dropped(w: World, t: Token): World
    requires t in w.entries && w.entries[t].Spliced?
  {
    w.(partners := w.partners - {w.entries[t].first, w.entries[t].second}, entries := w.entries - {t})
  }

  /** Leaving: a parked peer's entry goes, a paired peer's partner is told it was left. */
  function AfterLeave(w: World, t: Token, i: Id): World {
    var w1 := w.(partners := w.partners - {i});
    if t !in w.entries || !w.entries[t].Holds(i) then w1
    else if w.entries[t].Parked? then w1.(entries := w1.entries - {t})
    else EndedAt(Dropped(w1, t), w.entries[t].Other(i), PartnerGone)
  }

  function AfterRelease(w: World, i: Id): World
    requires i in w.peers
  {
    match w.peers[i].token
    case None => w
    case Some(t) => AfterLeave(w, t, i)
  }

  function AfterClose(w: World, i: Id, code: CloseCode): World
    requires i in w.peers
  {
    if w.peers[i].state.Closed? then w
    else AfterRelease(With(w, i, Ended(w.peers[i], code)), i)
  }

  /** A teardown of the relay's own: both halves are given one reason and neither is told it was left. */
  function AfterEndSession(w: World, t: Token, code: CloseCode): World
    requires t in w.entries && w.entries[t].Spliced?
  {
    EndedAt(EndedAt(Dropped(w, t), w.entries[t].first, code), w.entries[t].second, code)
  }

  function MarkedAt(w: World, i: Id, session: nat, initiator: bool, now: int): World {
    if i in w.peers then With(w, i, MarkedPaired(w.peers[i], session, initiator, now)) else w
  }

  /** The table's answer to a hello, before the arriving session records it. */
  function AfterJoin(w: World, t: Token, i: Id, now: int): World {
    if t !in w.entries then
      w.(entries := w.entries[t := Parked(w.minted, i, now)], minted := w.minted + 1)
    else match w.entries[t]
      case Parked(ref, j, _) =>
        var w1 := w.(entries := w.entries[t := Spliced(ref, w.minted, j, i, now)],
                     partners := w.partners[j := i][i := j], minted := w.minted + 1);
        MarkedAt(MarkedAt(w1, j, w.minted, false, now), i, w.minted, true, now)
      case Spliced(_, _, _, _, _) =>
        var w1 := AfterEndSession(w, t, Superseded);
        w1.(entries := w1.entries[t := Parked(w.minted, i, now)], minted := w.minted + 1)
  }

  // ---------------------------------------------------------------- the events

  function AfterHello(w: World, i: Id, frame: TextFrame, now: int): World
    requires i in w.peers
  {
    if !frame.HelloText? then AfterClose(w, i, BadHello)
    else
      AfterPresenting(With(w, i, w.peers[i].(token := Some(frame.token))), i, frame.token, now)
  }

  function AfterPresenting(w: World, i: Id, t: Token, now: int): World
    requires i in w.peers
  {
    var w1 := AfterJoin(w, t, i, now);
    var p := w1.peers[i].(pairRef := Some(w1.entries[t].pairRef));
    With(w1, i, if w1.entries[t].Spliced? then p
                else p.(state := Waiting, socket := Notified(p.socket, WaitingFrame)))
  }

  /** What a session makes of a frame on its own account: it closes for a reason, or lets it through. */
  datatype Verdict = Refuse(code: CloseCode) | Allow

  /** A text frame after the hello, charged before it is looked at. */
  function TextVerdict(cfg: Config, p: Peer, frame: TextFrame, now: int): (Verdict, Peer) {
    var (frameFits, p1) := ChargedFrame(cfg, p, now);
    if !frameFits then (Refuse(RateLimited), p1)
    else if frame.Bytes() > cfg.maxFrameBytes then (Refuse(TooLarge), p1)
    else
      var (bytesFit, p2) := ChargedBytes(cfg, p1, frame.Bytes(), now);
      if !bytesFit then (Refuse(RateLimited), p2)
      else if !frame.PingText? then (Refuse(Protocol), p2)
      else if p2.socket.backlog > cfg.maxBufferedBytes then (Refuse(SlowConsumer), p2)
      else (Allow, p2.(socket := Put(p2.socket, Text(PongFrame))))
  }

  function BinaryVerdict(cfg: Config, p: Peer, size: nat, now: int): (Verdict, Peer) {
    if p.state.Greeting? then (Refuse(Protocol), p)
    else if size > cfg.maxFrameBytes then (Refuse(TooLarge), p)
    else
      var (frameFits, p1) := ChargedFrame(cfg, p, now);
      if !frameFits then (Refuse(RateLimited), p1)
      else
        var (bytesFit, p2) := ChargedBytes(cfg, p1, size, now);
        if !bytesFit then (Refuse(RateLimited), p2)
        else if !p2.state.Paired? then (Refuse(Protocol), p2)
        else (Allow, p2)
  }

  /** A session's verdict carried out: it is recorded, and a refusal closes it. */
  function AfterVerdict(w: World, i: Id, verdict: (Verdict, Peer)): World
    requires i in w.peers
  {
    match verdict.0
    case Refuse(code) => AfterClose(With(w, i, verdict.1), i, code)
    case Allow => With(w, i, verdict.1)
  }

  function AfterText(cfg: Config, w: World, i: Id, frame: TextFrame, now: int): World
    requires i in w.peers
  {
    if w.peers[i].state.Closed? then w
    else
      var p := w.peers[i].(lastHeardAt := now);
      if p.state.Greeting? then
        AfterHello(With(w, i, p), i, frame, now)
      else AfterVerdict(w, i, TextVerdict(cfg, p, frame, now))
  }

  function AfterBinary(cfg: Config, w: World, i: Id, payload: Payload, now: int): World
    requires i in w.peers
  {
    if w.peers[i].state.Closed? then w
    else
      var p := w.peers[i].(lastHeardAt := now);
      var (verdict, q) := BinaryVerdict(cfg, p, |payload|, now);
      if verdict.Refuse? then AfterVerdict(w, i, (verdict, q))
      else AfterSplice(cfg, With(w, i, q), i, payload, now)
  }

  /** A content frame that cost its sender what it should: on to the partner, or the slow one goes. */
  function AfterSplice(cfg: Config, w: World, i: Id, payload: Payload, now: int): World
    requires i in w.peers
  {
    if i !in w.partners || w.partners[i] !in w.peers then AfterClose(w, i, GoingAway)
    else
      var j := w.partners[i];
      if w.peers[j].socket.backlog > cfg.maxBufferedBytes then AfterClose(w, j, SlowConsumer)
      else Carried(w, i, j, payload, now)
  }

  /** The splice itself: counted on one side, put on the socket of the other. */
  function Carried(w: World, i: Id, j: Id, payload: Payload, now: int): World
    requires i in w.peers && j in w.peers
  {
    With(With(w, i, CountedIn(w.peers[i], now)), j, Delivered(w.peers[j], payload, now))
  }

  function AfterPong(w: World, i: Id, now: int): World
    requires i in w.peers
  {
    With(w, i, w.peers[i].(awaitingPong := false, lastHeardAt := now))
  }

  /** A keepalive the host answered by itself counts as hearing the peer, never as hearing it earlier. */
  function Heard(p: Peer, at: int): Peer {
    if at > p.lastHeardAt then p.(lastHeardAt := at) else p
  }

  /** The socket ended, for whatever reason. */
  function AfterSocketClosed(w: World, i: Id): World
    requires i in w.peers
  {
    if w.peers[i].state.Closed? then w else AfterRelease(With(w, i, w.peers[i].(state := Closed)), i)
  }

  predicate GreetingOverdue(cfg: Config, p: Peer, now: int) {
    p.state.Greeting? && now - p.openedAt >= cfg.helloTimeoutMs
  }

  predicate IdleOverdue(cfg: Config, p: Peer, now: int) {
    p.state.Paired? && cfg.idleTimeoutMs > 0 && now - Later(p.lastSpliceAt, p.lastHeardAt) >= cfg.idleTimeoutMs
  }

  /** Both halves of a silent pair hear the same thing; a session the table does not know goes alone. */
  function AfterSilence(w: World, i: Id): World
    requires i in w.peers
  {
    var p := w.peers[i];
    if p.token.Some? && p.token.value in w.entries && w.entries[p.token.value].Spliced? && w.entries[p.token.value].Holds(i)
    then AfterEndSession(w, p.token.value, Idle)
    else AfterClose(w, i, Idle)
  }

  /** One session's share of a sweep: its deadlines, then its keepalive. */
  function AfterSweepOne(cfg: Config, w: World, i: Id, now: int): World
    requires i in w.peers
  {
    var p := w.peers[i];
    if p.state.Closed? then w
    else if GreetingOverdue(cfg, p, now) then AfterClose(w, i, BadHello)
    else if IdleOverdue(cfg, p, now) then AfterSilence(w, i)
    else if !cfg.pings || now - p.lastHeardAt < cfg.keepaliveIntervalMs then w
    else AfterKeepAlive(cfg, w, i, now)
  }

  function AfterKeepAlive(cfg: Config, w: World, i: Id, now: int): World
    requires i in w.peers
  {
    var p := w.peers[i];
    if p.awaitingPong then
      if now - p.lastPingAt < cfg.keepaliveIntervalMs then w else AfterCutOff(w, i)
    else if p.socket.open then
      With(w, i, p.(awaitingPong := true, lastPingAt := now, socket := Put(p.socket, Ping)))
    else w
  }

  /** A peer that has stopped answering gets no handshake; its partner is told it has gone. */
  function AfterCutOff(w: World, i: Id): World
    requires i in w.peers
  {
    AfterRelease(With(w, i, CutOff(w.peers[i])), i)
  }

  function CutOff(p: Peer): Peer {
    p.(state := Closed, socket := Put(p.socket, Terminate).(open := false))
  }

  predicate ParkingOverdue(cfg: Config, e: Entry, now: int) {
    e.Parked? && cfg.pairTimeoutMs > 0 && now - e.since >= cfg.pairTimeoutMs
  }

  function Expired(cfg: Config, w: World, now: int): set<Id> {
    set t | t in w.entries && ParkingOverdue(cfg, w.entries[t], now) :: w.entries[t].peer
  }

  /** Every peer parked past the pairing budget is sent away; no other session is touched. */
  function AfterExpiry(cfg: Config, w: World, now: int): World {
    var gone := Expired(cfg, w, now);
    World(map i | i in w.peers :: if i in gone then Ended(w.peers[i], PairTimeout) else w.peers[i],
          map t | t in w.entries && !ParkingOverdue(cfg, w.entries[t], now) :: w.entries[t],
          w.partners, w.minted)
  }

  // ---------------------------------------------------------------- the invariant

  /**
   * The table points only at sessions that exist and carry its token. It holds between any
   * two calls, re-entrant ones included, and is all that the code's recursion relies on.
   */
  ghost predicate TableSound(w: World) {
    forall t {:trigger RowSound(w, t)} :: t in w.entries ==> RowSound(w, t)
  }

  ghost predicate RowSound(w: World, t: Token)
    requires t in w.entries
  {
    match w.entries[t]
    case Parked(_, i, _) => i in w.peers && w.peers[i].token == Some(t)
    case Spliced(_, _, a, b, _) =>
      a != b && a in w.peers && b in w.peers && w.peers[a].token == Some(t) && w.peers[b].token == Some(t)
  }

  /** What one session's own account of itself says about the table. */
  ghost predicate SessionAgrees(w: World, i: Id)
    requires i in w.peers
  {
    var p := w.peers[i];
    match p.state
    case Greeting => p.token.None? && p.sessionId.None? && i !in w.partners
    case Waiting =>
      p.token.Some? && p.token.value in w.entries && p.sessionId.None? && i !in w.partners &&
      w.entries[p.token.value].Parked? && w.entries[p.token.value].peer == i
    case Paired =>
      p.token.Some? && p.token.value in w.entries &&
      var e := w.entries[p.token.value];
      e.Spliced? && e.Holds(i) && p.sessionId == Some(e.sessionId) &&
      i in w.partners && w.partners[i] == e.Other(i)
    case Closed => i !in w.partners
  }

  /** What one row of the table says about the sessions in it. */
  ghost predicate EntryAgrees(w: World, t: Token)
    requires t in w.entries
  {
    match w.entries[t]
    case Parked(_, i, _) => i in w.peers && w.peers[i].token == Some(t) && w.peers[i].state.Waiting?
    case Spliced(_, _, a, b, _) =>
      a != b && a in w.peers && b in w.peers &&
      w.peers[a].token == Some(t) && w.peers[b].token == Some(t) &&
      w.peers[a].state.Paired? && w.peers[b].state.Paired?
  }

  /** Two sessions that were ever given one session id are the two halves of one pairing. */
  ghost predicate Mates(w: World, i: Id, j: Id) {
    i in w.peers && j in w.peers && i != j &&
    w.peers[i].sessionId.Some? && w.peers[i].sessionId == w.peers[j].sessionId
  }

  ghost predicate MatesAgree(w: World, i: Id, j: Id)
    requires Mates(w, i, j)
  {
    w.peers[i].token.Some? && w.peers[i].token == w.peers[j].token &&
    (w.peers[i].state.Paired? || w.peers[i].state.Closed?) &&
    (w.peers[i].state.Paired? <==> w.peers[j].state.Paired?) &&
    (w.peers[i].state.Paired? ==> i in w.partners && w.partners[i] == j)
  }

  ghost predicate Inv(w: World) {
    && (forall i :: i in w.partners ==> i in w.peers)
    && (forall i {:trigger SessionAgrees(w, i)} :: i in w.peers ==> SessionAgrees(w, i))
    && (forall t {:trigger EntryAgrees(w, t)} :: t in w.entries ==> EntryAgrees(w, t))
    && (forall i :: i in w.peers && w.peers[i].sessionId.Some? ==> w.peers[i].sessionId.value < w.minted)
    && (forall i, j :: Mates(w, i, j) ==> MatesAgree(w, i, j))
    && (forall i, j, k :: Mates(w, i, j) && Mates(w, i, k) ==> j == k)
  }

  lemma InvIsSound(w: World)
    requires Inv(w)
    ensures TableSound(w)
  {
    forall t | t in w.entries
      ensures EntryAgrees(w, t)
    {
    }
  }

  /** A change to anything but a session's state, token and session id. */
  predicate Quiet(p: Peer, q: Peer) {
    p.state == q.state && p.token == q.token && p.sessionId == q.sessionId
  }

  lemma QuietKeepsInv(w: World, i: Id, q: Peer)
    requires Inv(w) && i in w.peers && Quiet(w.peers[i], q)
    ensures Inv(With(w, i, q))
  {
    var w' := With(w, i, q);
    forall k | k in w'.peers
      ensures SessionAgrees(w', k)
    {
      assert SessionAgrees(w, k);
    }
    forall t | t in w'.entries
      ensures EntryAgrees(w', t)
    {
      assert EntryAgrees(w, t);
    }
    forall k, j | Mates(w', k, j)
      ensures MatesAgree(w', k, j)
    {
      assert Mates(w, k, j);
    }
    forall k, j, l | Mates(w', k, j) && Mates(w', k, l)
      ensures j == l
    {
      assert Mates(w, k, j) && Mates(w, k, l);
    }
  }
}
