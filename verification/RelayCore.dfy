/**
 * The relay's own classes: `PeerSession` with its fields updated in place, `Rendezvous` with its two
 * maps, calling each other as the code does. Closing re-enters the table and the table closes peers;
 * every method is proved to leave the world exactly as the flat function of `RelayModel` says.
 */
module RelayCore {
  import opened Wrappers
  import opened RateLimit
  import opened RelayModel
  import opened RelayInvariant

  /** A row of the table, holding the sessions themselves. */
  datatype Row =
    | ParkedRow(pairRef: nat, peer: PeerSession, since: int)
    | SplicedRow(pairRef: nat, sessionId: nat, first: PeerSession, second: PeerSession, pairedAt: int)
  {
    function Entry(): Entry {
      match this
      case ParkedRow(ref, peer, since) => Parked(ref, peer.id, since)
      case SplicedRow(ref, session, first, second, at) => Spliced(ref, session, first.id, second.id, at)
    }
  }

  function Entries(rows: map<Token, Row>): map<Token, Entry> {
    map t | t in rows :: rows[t].Entry()
  }

  function Ids(partners: map<Id, PeerSession>): map<Id, Id> {
    map i | i in partners :: partners[i].id
  }

  function IdSet(sessions: seq<PeerSession>): set<Id> {
    set s | s in sessions :: s.id
  }

  function IdsIn(sessions: seq<PeerSession>): seq<Id> {
    seq(|sessions|, k requires 0 <= k < |sessions| => sessions[k].id)
  }

  /** A table with the row of at most two sessions put back. */
  function Restored(w: World, t: Token, ids: seq<Id>, ref: nat, session: Option<nat>, since: int): World {
    if |ids| == 1 then w.(entries := w.entries[t := Parked(ref, ids[0], since)])
    else if |ids| == 2 && session.Some? then
      w.(entries := w.entries[t := Spliced(ref, session.value, ids[0], ids[1], since)],
         partners := w.partners[ids[0] := ids[1]][ids[1] := ids[0]])
    else w
  }

  lemma EntriesUpdated(rows: map<Token, Row>, t: Token, row: Row)
    ensures Entries(rows[t := row]) == Entries(rows)[t := row.Entry()]
    ensures Entries(rows - {t}) == Entries(rows) - {t}
  {
  }

  lemma IdsUpdated(partners: map<Id, PeerSession>, i: Id, s: PeerSession)
    ensures Ids(partners[i := s]) == Ids(partners)[i := s.id]
    ensures Ids(partners - {i}) == Ids(partners) - {i}
  {
  }

  datatype JoinOutcome = JoinedWaiting(pairRef: nat, superseded: bool) | JoinedPaired(pairRef: nat, sessionId: nat)

  datatype LeaveOutcome = LeaveOutcome(removed: bool, endedSession: bool)

  class Rendezvous {
    var entries: map<Token, Row>
    var partners: map<Id, PeerSession>
    var minted: nat
    ghost var registry: map<Id, PeerSession>

    ghost predicate Knows(s: PeerSession)
      reads this
    {
      s.id in registry && registry[s.id] == s
    }

    /** What the objects hold, as a value. */
    ghost function World(): World
      reads this, registry.Values
    {
      RelayModel.World(map i | i in registry :: registry[i].Value(),
            Entries(entries), Ids(partners), minted)
    }

    /** Every session the table points at is one of the host's. */
    ghost predicate Valid()
      reads this
    {
      && (forall i :: i in registry ==> registry[i].id == i && registry[i].rendezvous == this)
      && (forall t {:trigger KnowsRow(entries[t])} :: t in entries ==> KnowsRow(entries[t]))
      && (forall i {:trigger Knows(partners[i])} :: i in partners ==> Knows(partners[i]))
    }

    ghost predicate KnowsRow(row: Row)
      reads this
    {
      match row
      case ParkedRow(_, p, _) => Knows(p)
      case SplicedRow(_, _, a, b, _) => Knows(a) && Knows(b)
    }

    /** Between two states in which no session changed, the world changed in its table alone. */
    twostate lemma SessionsUntouched()
      requires old(registry) == registry && forall i :: i in registry ==> unchanged(registry[i])
      ensures World() == RelayModel.World(old(World()).peers, Entries(entries), Ids(partners), minted)
    {
    }

    /** Forgetting rows or partners leaves no stranger in the table. */
    twostate lemma StaysValid()
      requires old(Valid()) && old(registry) == registry
      requires forall t :: t in entries ==> t in old(entries) && entries[t] == old(entries)[t]
      requires forall i :: i in partners ==> i in old(partners) && partners[i] == old(partners)[i]
      ensures Valid()
    {
      forall t | t in entries
        ensures KnowsRow(entries[t])
      {
        assert old(KnowsRow(entries[t]));
      }
      forall i | i in partners
        ensures Knows(partners[i])
      {
        assert old(Knows(partners[i]));
      }
    }

    /** Between two states in which only one session changed, the world changed in that session alone. */
    twostate lemma SessionTouched(s: PeerSession)
      requires old(Valid()) && old(Knows(s)) && unchanged(this)
      requires forall i :: i in registry && i != s.id ==> unchanged(registry[i])
      ensures World() == With(old(World()), s.id, s.Value())
    {
      assert World().peers == old(World()).peers[s.id := s.Value()];
    }

    constructor ()
      ensures Valid() && registry == map[]
      ensures World() == RelayModel.World(map[], map[], map[], 0)
    {
      entries, partners, minted, registry := map[], map[], 0, map[];
    }

    /** An empty table of a host that has given out references before. */
    constructor Anew(minted: nat)
      ensures Valid() && registry == map[]
      ensures World() == RelayModel.World(map[], map[], map[], minted)
    {
      entries, partners, this.minted, registry := map[], map[], minted, map[];
    }

    method Leave(token: Token, peer: PeerSession) returns (outcome: LeaveOutcome)
      requires Valid() && Knows(peer) && TableSound(World())
      modifies this, registry.Values
      ensures Valid() && registry == old(registry)
      ensures World() == AfterLeave(old(World()), token, peer.id)
      decreases |entries|, 0
    {
      IdsUpdated(partners, peer.id, peer);
      partners := partners - {peer.id};
      StaysValid();
      SessionsUntouched();
      if token !in entries {
        return LeaveOutcome(false, false);
      }
      var existing := entries[token];
      assert old(KnowsRow(entries[token]));
      if existing.ParkedRow? {
        if existing.peer.id != peer.id {
          return LeaveOutcome(false, false);
        }
        EntriesUpdated(entries, token, existing);
        entries := entries - {token};
        StaysValid();
        SessionsUntouched();
        return LeaveOutcome(true, false);
      }
      if existing.first.id != peer.id && existing.second.id != peer.id {
        return LeaveOutcome(false, false);
      }
      LeaveIsFlat(old(World()), token, peer.id);
      var partner := if existing.first.id == peer.id then existing.second else existing.first;
      DropSession(token, existing);
      partner.Close(PartnerGone);
      return LeaveOutcome(true, true);
    }

    /** The specification's list of sessions grows by one; nothing else knows yet. */
    ghost method Admit(s: PeerSession)
      requires Valid() && s.id !in registry && s.rendezvous == this
      modifies this`registry
      ensures Valid() && registry == old(registry)[s.id := s]
      ensures World() == With(old(World()), s.id, s.Value())
    {
      registry := registry[s.id := s];
      forall t | t in entries
        ensures KnowsRow(entries[t])
      {
        assert old(KnowsRow(entries[t]));
      }
      forall i | i in partners
        ensures Knows(partners[i])
      {
        assert old(Knows(partners[i]));
      }
      assert World().peers == old(World()).peers[s.id := s.Value()];
    }

    method Join(token: Token, peer: PeerSession, now: int) returns (outcome: JoinOutcome)
      requires Valid() && Knows(peer) && TableSound(World())
      requires peer.token == Some(token) && (token in entries ==> !entries[token].Entry().Holds(peer.id))
      modifies this, registry.Values
      ensures Valid() && registry == old(registry)
      ensures World() == AfterJoin(old(World()), token, peer.id, now)
      ensures token in World().entries && outcome.pairRef == World().entries[token].pairRef
      ensures outcome.JoinedPaired? <==> World().entries[token].Spliced?
    {
      ghost var w := World();
      if token !in entries {
        Park(token, peer, now);
        return JoinedWaiting(entries[token].pairRef, false);
      }
      var existing := entries[token];
      assert KnowsRow(existing);
      if existing.ParkedRow? {
        var sessionId := minted;
        Pair(token, existing, peer, now);
        return JoinedPaired(existing.pairRef, sessionId);
      }
      var pairRef := minted;
      Supersede(token, existing, peer, now);
      return JoinedWaiting(pairRef, true);
    }

    /** A parked peer and the one arriving become a session; the arriving one initiates. */
    method Pair(token: Token, row: Row, peer: PeerSession, now: int)
      requires Valid() && Knows(peer) && TableSound(World())
      requires peer.token == Some(token) && token in entries && entries[token] == row && row.ParkedRow?
      requires KnowsRow(row) && row.peer != peer
      modifies this, registry.Values
      ensures Valid() && registry == old(registry)
      ensures World() == AfterJoin(old(World()), token, peer.id, now)
    {
      var sessionId := minted;
      Splice(token, row, peer, now);
      label spliced:
      row.peer.MarkPaired(sessionId, false, now);
      SessionTouched@spliced(row.peer);
      label marked:
      peer.MarkPaired(sessionId, true, now);
      SessionTouched@marked(peer);
    }

    /** A third peer ends the session and waits in its place; the late closes of the old pair do not evict it. */
    method Supersede(token: Token, row: Row, peer: PeerSession, now: int)
      requires Valid() && Knows(peer) && TableSound(World())
      requires peer.token == Some(token) && token in entries && entries[token] == row && row.SplicedRow?
      requires KnowsRow(row) && !row.Entry().Holds(peer.id)
      modifies this, registry.Values
      ensures Valid() && registry == old(registry)
      ensures World() == AfterJoin(old(World()), token, peer.id, now)
    {
      SupersedeIsFlat(World(), token, peer.id, now);
      DropSession(token, row);
      Park(token, peer, now);
      row.first.Close(Superseded);
      row.second.Close(Superseded);
    }

    method Park(token: Token, peer: PeerSession, now: int)
      requires Valid() && Knows(peer)
      modifies this
      ensures Valid() && registry == old(registry)
      ensures entries == old(entries)[token := ParkedRow(old(minted), peer, now)]
      ensures World() == old(World()).(entries := old(World()).entries[token := Parked(old(minted), peer.id, now)],
                                       minted := old(minted) + 1)
    {
      EntriesUpdated(entries, token, ParkedRow(minted, peer, now));
      entries := entries[token := ParkedRow(minted, peer, now)];
      minted := minted + 1;
      ValidWithRow(token);
      SessionsUntouched();
    }

    method Splice(token: Token, row: Row, peer: PeerSession, now: int)
      requires Valid() && Knows(peer) && token in entries && entries[token] == row && row.ParkedRow? && Knows(row.peer)
      modifies this
      ensures Valid() && registry == old(registry)
      ensures entries == old(entries)[token := SplicedRow(row.pairRef, old(minted), row.peer, peer, now)]
      ensures World() == old(World()).(
                entries := old(World()).entries[token := Spliced(row.pairRef, old(minted), row.peer.id, peer.id, now)],
                partners := old(World()).partners[row.peer.id := peer.id][peer.id := row.peer.id],
                minted := old(minted) + 1)
    {
      EntriesUpdated(entries, token, SplicedRow(row.pairRef, minted, row.peer, peer, now));
      entries := entries[token := SplicedRow(row.pairRef, minted, row.peer, peer, now)];
      minted := minted + 1;
      IdsUpdated(partners, row.peer.id, peer);
      partners := partners[row.peer.id := peer];
      IdsUpdated(partners, peer.id, row.peer);
      partners := partners[peer.id := row.peer];
      ValidWithRow(token);
      SessionsUntouched();
    }

    twostate lemma ValidWithRow(t: Token)
      requires old(Valid()) && old(registry) == registry && t in entries && KnowsRow(entries[t])
      requires forall s :: s in entries && s != t ==> s in old(entries) && entries[s] == old(entries)[s]
      requires forall i :: i in partners && !(i in old(partners) && partners[i] == old(partners)[i]) ==> Knows(partners[i])
      ensures Valid()
    {
      forall s | s in entries
        ensures KnowsRow(entries[s])
      {
        if s != t {
          assert old(KnowsRow(entries[s]));
        }
      }
      forall i | i in partners
        ensures Knows(partners[i])
      {
        if i in old(partners) && partners[i] == old(partners)[i] {
          assert old(Knows(partners[i]));
        }
      }
    }

    method EndSession(token: Token, peer: PeerSession, code: CloseCode) returns (ended: bool)
      requires Valid() && Knows(peer) && TableSound(World())
      modifies this, registry.Values
      ensures Valid() && registry == old(registry)
      ensures var w := old(World());
              ended == (token in w.entries && w.entries[token].Spliced? && w.entries[token].Holds(peer.id)) &&
              World() == if ended then AfterEndSession(w, token, code) else w
    {
      if token !in entries || !entries[token].SplicedRow? {
        return false;
      }
      var existing := entries[token];
      assert KnowsRow(existing);
      if existing.first.id != peer.id && existing.second.id != peer.id {
        return false;
      }
      EndSessionIsFlat(World(), token, code);
      DropSession(token, existing);
      existing.first.Close(code);
      existing.second.Close(code);
      return true;
    }

    /** Puts back a row lost to eviction: nobody is told, nothing is minted. */
    method Restore(token: Token, peers: seq<PeerSession>, pairRef: nat, sessionId: Option<nat>, since: int)
      requires Valid() && forall p :: p in peers ==> Knows(p)
      modifies this
      ensures Valid() && registry == old(registry)
      ensures World() == Restored(old(World()), token, IdsIn(peers), pairRef, sessionId, since)
    {
      if |peers| == 1 {
        assert peers[0] in peers;
        EntriesUpdated(entries, token, ParkedRow(pairRef, peers[0], since));
        entries := entries[token := ParkedRow(pairRef, peers[0], since)];
        ValidWithRow(token);
        SessionsUntouched();
      } else if |peers| == 2 && sessionId.Some? {
        assert peers[0] in peers && peers[1] in peers;
        RestorePair(token, peers[0], peers[1], pairRef, sessionId.value, since);
      }
    }

    method RestorePair(token: Token, first: PeerSession, second: PeerSession, pairRef: nat, sessionId: nat, since: int)
      requires Valid() && Knows(first) && Knows(second)
      modifies this
      ensures Valid() && registry == old(registry)
      ensures World() == Restored(old(World()), token, [first.id, second.id], pairRef, Some(sessionId), since)
    {
      EntriesUpdated(entries, token, SplicedRow(pairRef, sessionId, first, second, since));
      entries := entries[token := SplicedRow(pairRef, sessionId, first, second, since)];
      IdsUpdated(partners, first.id, second);
      partners := partners[first.id := second];
      IdsUpdated(partners, second.id, first);
      partners := partners[second.id := first];
      ValidWithRow(token);
      SessionsUntouched();
    }

    /** The whole table at once, with no word to anybody. */
    method Clear()
      requires Valid()
      modifies this
      ensures Valid() && registry == old(registry)
      ensures World() == old(World()).(entries := map[], partners := map[])
    {
      entries := map[];
      partners := map[];
      SessionsUntouched();
    }

    /** Exactly the peers that have waited their whole budget; closing them is up to the host. */
    method ExpiredWaiters(cfg: Config, now: int) returns (expired: seq<PeerSession>)
      requires Valid()
      ensures forall s :: s in expired ==> Knows(s)
      ensures IdSet(expired) == Expired(cfg, World(), now)
    {
      expired := [];
      if cfg.pairTimeoutMs <= 0 {
        return;
      }
      var rest := entries.Keys;
      while rest != {}
        invariant rest <= entries.Keys
        invariant forall s :: s in expired ==> Knows(s)
        invariant forall t :: t in entries && t !in rest && ParkingOverdue(cfg, entries[t].Entry(), now) ==> entries[t].peer in expired
        invariant forall s :: s in expired ==>
                    exists t :: t in entries && ParkingOverdue(cfg, entries[t].Entry(), now) && entries[t].peer == s
      {
        var t :| t in rest;
        rest := rest - {t};
        var entry := entries[t];
        assert KnowsRow(entry);
        if entry.ParkedRow? && now - entry.since >= cfg.pairTimeoutMs {
          expired := expired + [entry.peer];
        }
      }
      ghost var w := World();
      forall i | i in Expired(cfg, w, now)
        ensures i in IdSet(expired)
      {
        var t :| t in w.entries && ParkingOverdue(cfg, w.entries[t], now) && w.entries[t].peer == i;
        assert entries[t].peer in expired;
      }
      forall i | i in IdSet(expired)
        ensures i in Expired(cfg, w, now)
      {
        var s :| s in expired && s.id == i;
        var t :| t in entries && ParkingOverdue(cfg, entries[t].Entry(), now) && entries[t].peer == s;
        assert t in w.entries && w.entries[t].peer == i;
      }
    }

    method DropSession(token: Token, row: Row)
      requires Valid() && token in entries && entries[token] == row && row.SplicedRow?
      modifies this
      ensures Valid() && registry == old(registry)
      ensures World() == Dropped(old(World()), token)
      ensures entries == old(entries) - {token}
    {
      IdsUpdated(partners, row.first.id, row.first);
      partners := partners - {row.first.id};
      IdsUpdated(partners, row.second.id, row.second);
      partners := partners - {row.second.id};
      EntriesUpdated(entries, token, row);
      entries := entries - {token};
      assert Ids(partners) == old(World()).partners - {row.first.id, row.second.id};
      StaysValid();
      SessionsUntouched();
    }
  }

  class PeerSession {
    const id: Id
    const openedAt: int
    const config: Config
    const rendezvous: Rendezvous
    var socket: Socket
    var frameBudget: BucketState
    var byteBudget: BucketState
    var state: Status
    var token: Option<Token>
    var pairRef: Option<nat>
    var sessionId: Option<nat>
    var lastSpliceAt: int
    var lastHeardAt: int
    var awaitingPong: bool
    var lastPingAt: int
    var framesIn: nat
    var framesOut: nat

    /** Everything the session is, as plain data, its socket with it. */
    function Value(): Peer
      reads this
    {
      Peer(openedAt, state, token, pairRef, sessionId, lastSpliceAt, lastHeardAt, lastPingAt, awaitingPong,
           framesIn, framesOut, frameBudget, byteBudget, socket)
    }

    constructor (id: Id, config: Config, rendezvous: Rendezvous, now: int)
      ensures this.id == id && this.config == config && this.rendezvous == rendezvous
      ensures Value() == Opened(config, now)
    {
      this.id, openedAt, this.config, this.rendezvous := id, now, config, rendezvous;
      socket := Socket(true, 0, []);
      state, token, pairRef, sessionId := Greeting, None, None, None;
      lastSpliceAt, lastHeardAt, lastPingAt, awaitingPong := now, now, 0, false;
      framesIn, framesOut := 0, 0;
      frameBudget := BucketState(config.maxFramesPerSecond as real, now);
      byteBudget := BucketState(config.maxBytesPerSecond as real, now);
    }

    /** A session rebuilt from its snapshot. */
    constructor Restore(id: Id, config: Config, rendezvous: Rendezvous, saved: Peer)
      ensures this.id == id && this.config == config && this.rendezvous == rendezvous
      ensures Value() == saved
    {
      this.id, openedAt, this.config, this.rendezvous := id, saved.openedAt, config, rendezvous;
      socket := saved.socket;
      state, token, pairRef, sessionId := saved.state, saved.token, saved.pairRef, saved.sessionId;
      lastSpliceAt, lastHeardAt := saved.lastSpliceAt, saved.lastHeardAt;
      lastPingAt, awaitingPong := saved.lastPingAt, saved.awaitingPong;
      framesIn, framesOut := saved.framesIn, saved.framesOut;
      frameBudget, byteBudget := saved.frameBudget, saved.byteBudget;
    }

    method Notify(frame: Control)
      modifies this`socket
      ensures socket == Notified(old(socket), frame)
    {
      if !socket.open {
        return;
      }
      socket := Put(socket, Text(frame));
    }

    method Close(code: CloseCode)
      requires rendezvous.Valid() && rendezvous.Knows(this) && TableSound(rendezvous.World())
      modifies rendezvous, rendezvous.registry.Values
      ensures rendezvous.Valid() && rendezvous.registry == old(rendezvous.registry)
      ensures rendezvous.World() == AfterClose(old(rendezvous.World()), id, code)
      decreases |rendezvous.entries|, 2
    {
      if state.Closed? {
        return;
      }
      state := Closed;
      if socket.open {
        Notify(ClosingFrame(code));
        socket := Put(socket, RelayModel.Close(code)).(open := false);
      } else {
        socket := Put(socket, Terminate);
      }
      rendezvous.SessionTouched(this);
      SameTokenKeepsSound(old(rendezvous.World()), id, Value());
      ReleaseRendezvous();
    }

    method MarkPaired(session: nat, initiator: bool, now: int)
      modifies this
      ensures Value() == MarkedPaired(old(Value()), session, initiator, now)
    {
      state := Paired;
      sessionId := Some(session);
      lastSpliceAt := now;
      Notify(PairedFrame(session, initiator));
    }

    method Deliver(payload: Payload, now: int)
      modifies this
      ensures Value() == Delivered(old(Value()), payload, now)
    {
      if !socket.open {
        return;
      }
      framesOut := framesOut + 1;
      lastSpliceAt := now;
      socket := Put(socket, Binary(payload));
    }

    method TakeFrame(now: int) returns (ok: bool)
      modifies this`frameBudget
      ensures (ok, Value()) == ChargedFrame(config, old(Value()), now)
    {
      var rate := config.maxFramesPerSecond as real;
      var taken := Charged(frameBudget, rate, rate, 1.0, now);
      frameBudget := taken.state;
      return taken.ok;
    }

    method TakeBytes(bytes: nat, now: int) returns (ok: bool)
      modifies this`byteBudget
      ensures (ok, Value()) == ChargedBytes(config, old(Value()), bytes, now)
    {
      var rate := config.maxBytesPerSecond as real;
      var taken := Charged(byteBudget, rate, rate, bytes as real, now);
      byteBudget := taken.state;
      return taken.ok;
    }

    method OnText(text: TextFrame, now: int)
      requires rendezvous.Valid() && rendezvous.Knows(this) && Inv(rendezvous.World())
      modifies rendezvous, rendezvous.registry.Values
      ensures rendezvous.Valid() && rendezvous.registry == old(rendezvous.registry)
      ensures rendezvous.World() == AfterText(config, old(rendezvous.World()), id, text, now)
    {
      if state.Closed? {
        return;
      }
      ghost var w := rendezvous.World();
      InvIsSound(w);
      lastHeardAt := now;
      if state.Greeting? {
        rendezvous.SessionTouched(this);
        QuietKeepsInv(w, id, Value());
        OnHello(text, now);
        return;
      }
      var verdict := JudgeText(text, now);
      rendezvous.SessionTouched(this);
      Obey(verdict, w);
    }

    /** A refusal closes the session, whatever else the frame did to it. */
    method Obey(verdict: Verdict, ghost w: World)
      requires rendezvous.Valid() && rendezvous.Knows(this) && TableSound(w) && id in w.peers
      requires rendezvous.World() == With(w, id, Value()) && token == w.peers[id].token
      modifies rendezvous, rendezvous.registry.Values
      ensures rendezvous.Valid() && rendezvous.registry == old(rendezvous.registry)
      ensures rendezvous.World() == AfterVerdict(w, id, (verdict, old(Value())))
    {
      SameTokenKeepsSound(w, id, Value());
      if verdict.Refuse? {
        Close(verdict.code);
      }
    }

    /** The charges and checks of a text frame after the hello; a ping within them is answered. */
    method JudgeText(text: TextFrame, now: int) returns (verdict: Verdict)
      modifies this
      ensures (verdict, Value()) == TextVerdict(config, old(Value()), text, now)
    {
      var frameFits := TakeFrame(now);
      if !frameFits {
        return Refuse(RateLimited);
      }
      var bytes := text.Bytes();
      if bytes > config.maxFrameBytes {
        return Refuse(TooLarge);
      }
      var bytesFit := TakeBytes(bytes, now);
      if !bytesFit {
        return Refuse(RateLimited);
      }
      if text.PingText? {
        if socket.backlog > config.maxBufferedBytes {
          return Refuse(SlowConsumer);
        }
        socket := Put(socket, Text(PongFrame));
        return Allow;
      }
      return Refuse(Protocol);
    }

    method OnHello(text: TextFrame, now: int)
      requires rendezvous.Valid() && rendezvous.Knows(this) && Inv(rendezvous.World()) && state.Greeting?
      modifies rendezvous, rendezvous.registry.Values
      ensures rendezvous.Valid() && rendezvous.registry == old(rendezvous.registry)
      ensures rendezvous.World() == AfterHello(old(rendezvous.World()), id, text, now)
    {
      ghost var w := rendezvous.World();
      InvIsSound(w);
      if !text.HelloText? {
        Close(BadHello);
        return;
      }
      GreetingHoldsNoRow(w, id, text.token);
      token := Some(text.token);
      rendezvous.SessionTouched(this);
      Present(text.token, now);
    }

    /** The table's answer to this session's token, recorded. */
    method Present(presented: Token, now: int)
      requires rendezvous.Valid() && rendezvous.Knows(this) && TableSound(rendezvous.World())
      requires token == Some(presented)
      requires presented in rendezvous.entries ==> !rendezvous.entries[presented].Entry().Holds(id)
      modifies rendezvous, rendezvous.registry.Values
      ensures rendezvous.Valid() && rendezvous.registry == old(rendezvous.registry)
      ensures rendezvous.World() == AfterPresenting(old(rendezvous.World()), id, presented, now)
    {
      var outcome := rendezvous.Join(presented, this, now);
      label joined:
      pairRef := Some(outcome.pairRef);
      if outcome.JoinedWaiting? {
        state := Waiting;
        Notify(WaitingFrame);
      }
      rendezvous.SessionTouched@joined(this);
    }

    method OnBinary(payload: Payload, now: int)
      requires rendezvous.Valid() && rendezvous.Knows(this) && Inv(rendezvous.World())
      modifies rendezvous, rendezvous.registry.Values
      ensures rendezvous.Valid() && rendezvous.registry == old(rendezvous.registry)
      ensures rendezvous.World() == AfterBinary(config, old(rendezvous.World()), id, payload, now)
    {
      if state.Closed? {
        return;
      }
      ghost var w := rendezvous.World();
      InvIsSound(w);
      lastHeardAt := now;
      var verdict := JudgeBinary(|payload|, now);
      rendezvous.SessionTouched(this);
      if verdict.Refuse? {
        Obey(verdict, w);
        return;
      }
      QuietKeepsInv(w, id, Value());
      Forward(payload, now);
    }

    /** The checks a content frame must pass before it may be forwarded. */
    method JudgeBinary(size: nat, now: int) returns (verdict: Verdict)
      modifies this
      ensures (verdict, Value()) == BinaryVerdict(config, old(Value()), size, now)
    {
      if state.Greeting? {
        return Refuse(Protocol);
      }
      if size > config.maxFrameBytes {
        return Refuse(TooLarge);
      }
      var fits := TakeFrame(now);
      if fits {
        fits := TakeBytes(size, now);
      }
      if !fits {
        return Refuse(RateLimited);
      }
      if !state.Paired? {
        return Refuse(Protocol);
      }
      return Allow;
    }

    /** The end of `onBinary`: the one place a payload goes. */
    method Forward(payload: Payload, now: int)
      requires rendezvous.Valid() && rendezvous.Knows(this) && Inv(rendezvous.World())
      modifies rendezvous, rendezvous.registry.Values
      ensures rendezvous.Valid() && rendezvous.registry == old(rendezvous.registry)
      ensures rendezvous.World() == AfterSplice(config, old(rendezvous.World()), id, payload, now)
    {
      InvIsSound(rendezvous.World());
      if id !in rendezvous.partners {
        Close(GoingAway);
        return;
      }
      var partner := rendezvous.partners[id];
      assert rendezvous.Knows(partner);
      PartnersAreMates(rendezvous.World(), id);
      if partner.socket.backlog > config.maxBufferedBytes {
        partner.Close(SlowConsumer);
        return;
      }
      Carry(partner, payload, now);
    }

    method CountIn(now: int)
      modifies this
      ensures Value() == CountedIn(old(Value()), now)
    {
      framesIn := framesIn + 1;
      lastSpliceAt := now;
    }

    method Carry(partner: PeerSession, payload: Payload, now: int)
      requires rendezvous.Valid() && rendezvous.Knows(this) && rendezvous.Knows(partner) && partner != this
      modifies this, partner
      ensures rendezvous.World() == Carried(old(rendezvous.World()), id, partner.id, payload, now)
    {
      CountIn(now);
      rendezvous.SessionTouched(this);
      label counted:
      partner.Deliver(payload, now);
      rendezvous.SessionTouched@counted(partner);
    }

    method OnPong(now: int)
      requires rendezvous.Valid() && rendezvous.Knows(this)
      modifies this
      ensures rendezvous.World() == AfterPong(old(rendezvous.World()), id, now)
    {
      awaitingPong := false;
      lastHeardAt := now;
      rendezvous.SessionTouched(this);
    }

    /** What the host knows of the peer from outside; an older reading than the last is ignored. */
    method NoteHeard(at: int)
      modifies this
      ensures Value() == Heard(old(Value()), at)
    {
      if at > lastHeardAt {
        lastHeardAt := at;
      }
    }

    method OnSocketClosed()
      requires rendezvous.Valid() && rendezvous.Knows(this) && Inv(rendezvous.World())
      modifies rendezvous, rendezvous.registry.Values
      ensures rendezvous.Valid() && rendezvous.registry == old(rendezvous.registry)
      ensures rendezvous.World() == AfterSocketClosed(old(rendezvous.World()), id)
    {
      InvIsSound(rendezvous.World());
      var wasOpen := !state.Closed?;
      state := Closed;
      rendezvous.SessionTouched(this);
      SameTokenKeepsSound(old(rendezvous.World()), id, Value());
      if wasOpen {
        ReleaseRendezvous();
      } else {
        assert rendezvous.World().peers == old(rendezvous.World()).peers;
      }
    }

    method Sweep(now: int)
      requires rendezvous.Valid() && rendezvous.Knows(this) && Inv(rendezvous.World())
      modifies rendezvous, rendezvous.registry.Values
      ensures rendezvous.Valid() && rendezvous.registry == old(rendezvous.registry)
      ensures rendezvous.World() == AfterSweepOne(config, old(rendezvous.World()), id, now)
    {
      InvIsSound(rendezvous.World());
      if state.Closed? {
        return;
      }
      if state.Greeting? && now - openedAt >= config.helloTimeoutMs {
        Close(BadHello);
        return;
      }
      var quietSince := if lastSpliceAt >= lastHeardAt then lastSpliceAt else lastHeardAt;
      if state.Paired? && config.idleTimeoutMs > 0 && now - quietSince >= config.idleTimeoutMs {
        EndForSilence();
        return;
      }
      if !config.pings {
        return;
      }
      if now - lastHeardAt < config.keepaliveIntervalMs {
        return;
      }
      KeepAlive(now);
    }

    /** A peer not heard from for an interval is pinged, and cut off when the ping went unanswered for another. */
    method KeepAlive(now: int)
      requires rendezvous.Valid() && rendezvous.Knows(this) && TableSound(rendezvous.World())
      modifies rendezvous, rendezvous.registry.Values
      ensures rendezvous.Valid() && rendezvous.registry == old(rendezvous.registry)
      ensures rendezvous.World() == AfterKeepAlive(config, old(rendezvous.World()), id, now)
    {
      if awaitingPong {
        if now - lastPingAt < config.keepaliveIntervalMs {
          return;
        }
        state := Closed;
        socket := Put(socket, Terminate).(open := false);
        rendezvous.SessionTouched(this);
        SameTokenKeepsSound(old(rendezvous.World()), id, Value());
        ReleaseRendezvous();
        return;
      }
      if socket.open {
        awaitingPong := true;
        lastPingAt := now;
        socket := Put(socket, Ping);
        rendezvous.SessionTouched(this);
      }
    }

    method EndForSilence()
      requires rendezvous.Valid() && rendezvous.Knows(this) && TableSound(rendezvous.World())
      modifies rendezvous, rendezvous.registry.Values
      ensures rendezvous.Valid() && rendezvous.registry == old(rendezvous.registry)
      ensures rendezvous.World() == AfterSilence(old(rendezvous.World()), id)
    {
      if token.Some? {
        var ended := rendezvous.EndSession(token.value, this, Idle);
        if ended {
          return;
        }
      }
      Close(Idle);
    }

    /** Only a session already closed lets go, so whoever is told it was left is told so after the fact. */
    method ReleaseRendezvous()
      requires rendezvous.Valid() && rendezvous.Knows(this) && TableSound(rendezvous.World()) && state.Closed?
      modifies rendezvous, rendezvous.registry.Values
      ensures rendezvous.Valid() && rendezvous.registry == old(rendezvous.registry)
      ensures rendezvous.World() == AfterRelease(old(rendezvous.World()), id)
      decreases |rendezvous.entries|, 1
    {
      if token.None? {
        return;
      }
      var _ := rendezvous.Leave(token.value, this);
    }
  }

  lemma SameTokenKeepsSound(w: World, i: Id, q: Peer)
    requires TableSound(w) && i in w.peers && q.token == w.peers[i].token
    ensures TableSound(With(w, i, q))
  {
    forall t | t in w.entries
      ensures RowSound(With(w, i, q), t)
    {
      assert RowSound(w, t);
    }
  }

  lemma SmallerTableIsSound(w: World, w': World)
    requires TableSound(w) && w'.peers == w.peers
    requires forall t :: t in w'.entries ==> t in w.entries && w'.entries[t] == w.entries[t]
    ensures TableSound(w')
  {
    forall t | t in w'.entries
      ensures RowSound(w', t)
    {
      assert RowSound(w, t);
    }
  }

  /** Closing a session the table has already let go of does nothing but close it. */
  lemma CloseUntabled(w: World, i: Id, code: CloseCode)
    requires TableSound(w) && i in w.peers && i !in w.partners
    requires w.peers[i].token.Some? && w.peers[i].token.value in w.entries ==> !w.entries[w.peers[i].token.value].Holds(i)
    ensures AfterClose(w, i, code) == EndedAt(w, i, code)
    ensures TableSound(EndedAt(w, i, code))
  {
    assert w.partners - {i} == w.partners;
    assert w.peers[i := w.peers[i]] == w.peers;
    SameTokenKeepsSound(w, i, Ended(w.peers[i], code));
  }

  /** A session still greeting is in no row, so it can be given a token and join. */
  lemma GreetingHoldsNoRow(w: World, i: Id, t: Token)
    requires Inv(w) && i in w.peers && w.peers[i].state.Greeting?
    ensures t in w.entries ==> !w.entries[t].Holds(i)
    ensures TableSound(With(w, i, w.peers[i].(token := Some(t))))
  {
    var w1 := With(w, i, w.peers[i].(token := Some(t)));
    assert SessionAgrees(w, i);
    forall s | s in w1.entries
      ensures RowSound(w1, s) && !w1.entries[s].Holds(i)
    {
      assert EntryAgrees(w, s);
    }
  }

  /** The partner's own close, re-entered from `Leave`, finds nothing left to release. */
  lemma LeaveIsFlat(w: World, t: Token, i: Id)
    requires TableSound(w) && t in w.entries && w.entries[t].Spliced? && w.entries[t].Holds(i)
    ensures
      var d := Dropped(w.(partners := w.partners - {i}), t);
      var j := w.entries[t].Other(i);
      TableSound(d) && j in d.peers && AfterClose(d, j, PartnerGone) == AfterLeave(w, t, i)
  {
    var d := Dropped(w.(partners := w.partners - {i}), t);
    assert RowSound(w, t);
    SmallerTableIsSound(w, d);
    CloseUntabled(d, w.entries[t].Other(i), PartnerGone);
  }

  /** Both halves closed after their row was dropped: neither close re-enters the table. */
  lemma EndSessionIsFlat(w: World, t: Token, code: CloseCode)
    requires TableSound(w) && t in w.entries && w.entries[t].Spliced?
    ensures
      var d := Dropped(w, t);
      var e := w.entries[t];
      TableSound(d) && e.first in d.peers && e.second in d.peers &&
      TableSound(AfterClose(d, e.first, code)) &&
      AfterClose(AfterClose(d, e.first, code), e.second, code) == AfterEndSession(w, t, code)
  {
    var d := Dropped(w, t);
    var e := w.entries[t];
    assert RowSound(w, t);
    SmallerTableIsSound(w, d);
    CloseUntabled(d, e.first, code);
    CloseUntabled(EndedAt(d, e.first, code), e.second, code);
  }

  /** A newcomer already in the row: the closes of the pair it displaced do not evict it. */
  lemma SupersedeIsFlat(w: World, t: Token, i: Id, now: int)
    requires TableSound(w) && t in w.entries && w.entries[t].Spliced? && !w.entries[t].Holds(i)
    requires i in w.peers && w.peers[i].token == Some(t)
    ensures
      var d := Dropped(w, t);
      var d1 := d.(entries := d.entries[t := Parked(w.minted, i, now)], minted := w.minted + 1);
      var e := w.entries[t];
      TableSound(d1) && e.first in d1.peers && e.second in d1.peers &&
      TableSound(AfterClose(d1, e.first, Superseded)) &&
      AfterClose(AfterClose(d1, e.first, Superseded), e.second, Superseded) == AfterJoin(w, t, i, now)
  {
    var d := Dropped(w, t);
    var d1 := d.(entries := d.entries[t := Parked(w.minted, i, now)], minted := w.minted + 1);
    var e := w.entries[t];
    assert RowSound(w, t);
    forall s | s in d1.entries
      ensures RowSound(d1, s)
    {
      if s != t {
        assert RowSound(w, s);
      }
    }
    CloseUntabled(d1, e.first, Superseded);
    CloseUntabled(EndedAt(d1, e.first, Superseded), e.second, Superseded);
  }
}
