/**
 * Every event keeps the table and the sessions in exact agreement (`RelayModel.Inv`).
 */
module RelayInvariant {
  import opened Wrappers
  import opened RelayModel

  /** A live session that stops being in the table, for whatever reason, is closed and nothing else about it changes. */
  ghost predicate Retired(p: Peer, q: Peer) {
    q.state.Closed? && q.token == p.token && q.sessionId == p.sessionId
  }

  /**
   * The shape every ending has: one session nobody holds, or one row of the table and everyone
   * in it, goes at once. `gone` are the sessions closed, `rows` the tokens dropped.
   */
  ghost predicate EndedTogether(w: World, w': World, gone: set<Id>, rows: set<Token>) {
    Removed(w, w', gone, rows) && GoWhole(w, gone, rows)
  }

  ghost predicate Removed(w: World, w': World, gone: set<Id>, rows: set<Token>) {
    && w'.peers.Keys == w.peers.Keys
    && gone <= w.peers.Keys
    && (forall i :: i in w.peers && i !in gone ==> w'.peers[i] == w.peers[i])
    && (forall i :: i in gone ==> Retired(w.peers[i], w'.peers[i]))
    && w'.entries == w.entries - rows
    && w'.partners == w.partners - gone
    && w'.minted == w.minted
  }

  /** No row is left holding someone who goes, no half of a pair is left behind. */
  ghost predicate GoWhole(w: World, gone: set<Id>, rows: set<Token>) {
    && (forall t, i :: t in w.entries && i in w.peers && w.entries[t].Holds(i) ==> (t in rows <==> i in gone))
    && (forall i :: i in gone && i in w.peers && w.peers[i].state.Paired? ==>
          i in w.partners && w.partners[i] in gone)
  }

  lemma EndingTogetherKeepsInv(w: World, w': World, gone: set<Id>, rows: set<Token>)
    requires Inv(w) && EndedTogether(w, w', gone, rows)
    ensures Inv(w')
  {
    forall k | k in w'.peers
      ensures SessionAgrees(w', k)
    {
      assert SessionAgrees(w, k);
      if k !in gone && w.peers[k].token.Some? && w.peers[k].token.value in w.entries {
        assert EntryAgrees(w, w.peers[k].token.value);
      }
    }
    forall t | t in w'.entries
      ensures EntryAgrees(w', t)
    {
      assert EntryAgrees(w, t);
    }
    forall k, j | Mates(w', k, j)
      ensures MatesAgree(w', k, j)
    {
      assert Mates(w, k, j) && MatesAgree(w, k, j);
      assert Mates(w, j, k) && MatesAgree(w, j, k);
    }
    forall k, j, l | Mates(w', k, j) && Mates(w', k, l)
      ensures j == l
    {
      assert Mates(w, k, j) && Mates(w, k, l);
    }
  }

  /** Who goes when `i` does. */
  function Together(w: World, i: Id): set<Id> {
    if i in w.partners then {i, w.partners[i]} else {i}
  }

  ghost function RowsOf(w: World, i: Id): set<Token> {
    set t | t in w.entries && w.entries[t].Holds(i)
  }

  /** A row holds a session only if the session carries the row's token, so at most one row does. */
  lemma HoldersCarryToken(w: World, t: Token, i: Id)
    requires Inv(w) && t in w.entries && w.entries[t].Holds(i)
    ensures i in w.peers && w.peers[i].token == Some(t)
    ensures w.peers[i].state == if w.entries[t].Parked? then Waiting else Paired
    ensures w.entries[t].Spliced? ==> i in w.partners && w.partners[i] == w.entries[t].Other(i)
  {
    assert EntryAgrees(w, t);
    assert SessionAgrees(w, i);
  }

  lemma RowsOfAlone(w: World, i: Id)
    requires Inv(w) && i in w.peers
    ensures w.peers[i].state.Greeting? || w.peers[i].state.Closed? ==> RowsOf(w, i) == {}
    ensures w.peers[i].state.Waiting? || w.peers[i].state.Paired? ==>
              w.peers[i].token.Some? && RowsOf(w, i) == {w.peers[i].token.value}
  {
    assert SessionAgrees(w, i);
    forall t | t in w.entries && w.entries[t].Holds(i)
      ensures w.peers[i].token == Some(t) && (w.peers[i].state.Waiting? || w.peers[i].state.Paired?)
    {
      HoldersCarryToken(w, t, i);
    }
  }

  lemma ReleaseAlone(w: World, i: Id, q: Peer)
    requires Inv(w) && i in w.peers && (w.peers[i].state.Greeting? || w.peers[i].state.Waiting?)
    requires Retired(w.peers[i], q)
    ensures AfterRelease(With(w, i, q), i)
         == w.(peers := w.peers[i := q], entries := w.entries - RowsOf(w, i))
  {
    RowsOfAlone(w, i);
    assert SessionAgrees(w, i);
    assert w.partners - {i} == w.partners;
  }

  lemma ReleasePaired(w: World, i: Id, q: Peer)
    requires Inv(w) && i in w.peers && w.peers[i].state.Paired?
    requires Retired(w.peers[i], q)
    ensures i in w.partners && w.partners[i] in w.peers && w.partners[i] != i
    ensures
      var j := w.partners[i];
      AfterRelease(With(w, i, q), i)
      == w.(peers := w.peers[i := q][j := Ended(w.peers[j], PartnerGone)],
               entries := w.entries - RowsOf(w, i), partners := w.partners - {i, j})
  {
    RowsOfAlone(w, i);
    assert SessionAgrees(w, i);
    var t := w.peers[i].token.value;
    assert EntryAgrees(w, t);
    var j := w.partners[i];
    assert w.partners - {i} - {w.entries[t].first, w.entries[t].second} == w.partners - {i, j};
  }

  lemma PairGoesWhole(w: World, t: Token)
    requires Inv(w) && t in w.entries && w.entries[t].Spliced?
    ensures GoWhole(w, {w.entries[t].first, w.entries[t].second}, {t})
    ensures {w.entries[t].first, w.entries[t].second} <= w.peers.Keys
  {
    var e := w.entries[t];
    HoldersCarryToken(w, t, e.first);
    HoldersCarryToken(w, t, e.second);
    forall s, k | s in w.entries && k in w.peers && w.entries[s].Holds(k)
      ensures s in {t} <==> k in {e.first, e.second}
    {
      HoldersCarryToken(w, s, k);
    }
  }

  lemma TogetherGoesWhole(w: World, i: Id)
    requires Inv(w) && i in w.peers && !w.peers[i].state.Closed?
    ensures GoWhole(w, Together(w, i), RowsOf(w, i))
    ensures Together(w, i) <= w.peers.Keys
    ensures !w.peers[i].state.Paired? ==> w.partners - {i} == w.partners && Together(w, i) == {i}
  {
    assert SessionAgrees(w, i);
    RowsOfAlone(w, i);
    if w.peers[i].state.Paired? {
      var t := w.peers[i].token.value;
      PairGoesWhole(w, t);
      assert Together(w, i) == {w.entries[t].first, w.entries[t].second};
    } else {
      forall t, k | t in w.entries && k in w.peers && w.entries[t].Holds(k)
        ensures t in RowsOf(w, i) <==> k in Together(w, i)
      {
        HoldersCarryToken(w, t, k);
      }
    }
  }

  /** However a live session ends on its own account, it takes its partner and its row with it, and no one else. */
  lemma ReleaseEndsTogether(w: World, i: Id, q: Peer)
    requires Inv(w) && i in w.peers && !w.peers[i].state.Closed? && Retired(w.peers[i], q)
    ensures EndedTogether(w, AfterRelease(With(w, i, q), i), Together(w, i), RowsOf(w, i))
    ensures w.peers[i].state.Paired? ==> i in w.partners && w.partners[i] in w.peers && w.partners[i] != i
    ensures AfterRelease(With(w, i, q), i).peers
         == if w.peers[i].state.Paired?
            then w.peers[i := q][w.partners[i] := Ended(w.peers[w.partners[i]], PartnerGone)]
            else w.peers[i := q]
  {
    TogetherGoesWhole(w, i);
    if w.peers[i].state.Paired? {
      ReleasePaired(w, i, q);
    } else {
      ReleaseAlone(w, i, q);
    }
  }

  lemma CloseEndsTogether(w: World, i: Id, code: CloseCode)
    requires Inv(w) && i in w.peers && !w.peers[i].state.Closed?
    ensures w.peers[i].state.Paired? ==> i in w.partners && w.partners[i] in w.peers && w.partners[i] != i
    ensures EndedTogether(w, AfterClose(w, i, code), Together(w, i), RowsOf(w, i))
    ensures AfterClose(w, i, code).peers
         == if w.peers[i].state.Paired?
            then w.peers[i := Ended(w.peers[i], code)][w.partners[i] := Ended(w.peers[w.partners[i]], PartnerGone)]
            else w.peers[i := Ended(w.peers[i], code)]
  {
    ReleaseEndsTogether(w, i, Ended(w.peers[i], code));
  }

  lemma EndSessionEndsTogether(w: World, t: Token, code: CloseCode)
    requires Inv(w) && t in w.entries && w.entries[t].Spliced?
    ensures EndedTogether(w, AfterEndSession(w, t, code), {w.entries[t].first, w.entries[t].second}, {t})
  {
    PairGoesWhole(w, t);
  }

  function RowsOverdue(cfg: Config, w: World, now: int): set<Token> {
    set t | t in w.entries && ParkingOverdue(cfg, w.entries[t], now)
  }

  lemma ExpiredIsParked(cfg: Config, w: World, now: int, k: Id)
    requires Inv(w) && k in Expired(cfg, w, now)
    ensures k in w.peers && w.peers[k].state.Waiting? && k !in w.partners
  {
    var t :| t in w.entries && ParkingOverdue(cfg, w.entries[t], now) && w.entries[t].peer == k;
    assert EntryAgrees(w, t);
    assert SessionAgrees(w, k);
  }

  lemma ExpiryRemoves(cfg: Config, w: World, now: int)
    requires Inv(w)
    ensures Removed(w, AfterExpiry(cfg, w, now), Expired(cfg, w, now), RowsOverdue(cfg, w, now))
  {
    var gone := Expired(cfg, w, now);
    forall k | k in gone
      ensures k in w.peers && w.peers[k].state.Waiting? && k !in w.partners
    {
      ExpiredIsParked(cfg, w, now, k);
    }
    assert w.partners - gone == w.partners;
    assert AfterExpiry(cfg, w, now).entries == w.entries - RowsOverdue(cfg, w, now);
  }

  lemma ExpiryEndsTogether(cfg: Config, w: World, now: int)
    requires Inv(w)
    ensures EndedTogether(w, AfterExpiry(cfg, w, now), Expired(cfg, w, now), RowsOverdue(cfg, w, now))
  {
    var gone := Expired(cfg, w, now);
    ExpiryRemoves(cfg, w, now);
    forall t, k | t in w.entries && k in w.peers && w.entries[t].Holds(k)
      ensures t in RowsOverdue(cfg, w, now) <==> k in gone
    {
      HoldersCarryToken(w, t, k);
      if k in gone {
        var s :| s in w.entries && ParkingOverdue(cfg, w.entries[s], now) && w.entries[s].peer == k;
        HoldersCarryToken(w, s, k);
      }
    }
    forall k | k in gone
      ensures !w.peers[k].state.Paired?
    {
      ExpiredIsParked(cfg, w, now, k);
    }
  }

  function ParkedIn(w: World, i: Id, p: Peer, t: Token, now: int): World {
    World(w.peers[i := p], w.entries[t := Parked(w.minted, i, now)], w.partners, w.minted + 1)
  }

  function SplicedIn(w: World, i: Id, p: Peer, j: Id, q: Peer, t: Token, ref: nat, now: int): World {
    World(w.peers[j := q][i := p], w.entries[t := Spliced(ref, w.minted, j, i, now)], w.partners[j := i][i := j], w.minted + 1)
  }

  lemma JoinParkedKeepsInv(w: World, i: Id, p: Peer, t: Token, now: int)
    requires Inv(w) && i in w.peers && w.peers[i].state.Greeting? && t !in w.entries
    requires p.state.Waiting? && p.token == Some(t) && p.sessionId.None?
    ensures Inv(ParkedIn(w, i, p, t, now))
  {
    var w' := ParkedIn(w, i, p, t, now);
    assert SessionAgrees(w, i);
    forall k | k in w'.peers
      ensures SessionAgrees(w', k)
    {
      assert SessionAgrees(w, k);
    }
    forall s | s in w'.entries
      ensures EntryAgrees(w', s)
    {
      if s != t {
        assert EntryAgrees(w, s);
      }
    }
    forall k, j | Mates(w', k, j)
      ensures MatesAgree(w', k, j)
    {
      assert Mates(w, k, j);
    }
    forall k, j, l | Mates(w', k, j) && Mates(w', k, l)
      ensures j == l
    {
      assert Mates(w, k, j) && Mates(w, k, l);
    }
  }

  /** Two sessions becoming a pair: `j` was parked under the token, `i` arrives with it. */
  lemma JoinPairedKeepsInv(w: World, i: Id, p: Peer, q: Peer, t: Token, now: int)
    requires Inv(w) && i in w.peers && w.peers[i].state.Greeting? && t in w.entries && w.entries[t].Parked?
    requires p.state.Paired? && p.token == Some(t) && p.sessionId == Some(w.minted)
    requires q.state.Paired? && q.token == Some(t) && q.sessionId == Some(w.minted)
    ensures Inv(SplicedIn(w, i, p, w.entries[t].peer, q, t, w.entries[t].pairRef, now))
  {
    var j := w.entries[t].peer;
    var w' := SplicedIn(w, i, p, j, q, t, w.entries[t].pairRef, now);
    assert SessionAgrees(w, i) && EntryAgrees(w, t) && SessionAgrees(w, j);
    forall k | k in w'.peers
      ensures SessionAgrees(w', k)
    {
      assert SessionAgrees(w, k);
      if k != i && k != j && w.peers[k].token.Some? && w.peers[k].token.value in w.entries {
        assert EntryAgrees(w, w.peers[k].token.value);
      }
    }
    forall s | s in w'.entries
      ensures EntryAgrees(w', s)
    {
      assert EntryAgrees(w, s);
    }
    MatesAfterPairing(w, w', i, j);
  }

  lemma MatesAfterPairing(w: World, w': World, i: Id, j: Id)
    requires Inv(w) && i in w.peers && j in w.peers && i != j
    requires w'.peers.Keys == w.peers.Keys && forall k :: k in w.peers && k != i && k != j ==> w'.peers[k] == w.peers[k]
    requires w.peers[i].sessionId.None? && w.peers[j].sessionId.None?
    requires w'.peers[i].sessionId == Some(w.minted) == w'.peers[j].sessionId
    requires w'.peers[i].state.Paired? && w'.peers[j].state.Paired?
    requires w'.peers[i].token == w'.peers[j].token && w'.peers[i].token.Some?
    requires w'.partners == w.partners[j := i][i := j]
    ensures forall k, l :: Mates(w', k, l) ==> MatesAgree(w', k, l)
    ensures forall k, l, m :: Mates(w', k, l) && Mates(w', k, m) ==> l == m
  {
    forall k, l | Mates(w', k, l)
      ensures (k == i && l == j) || (k == j && l == i) || (Mates(w, k, l) && k != i && k != j && l != i && l != j)
    {
    }
    forall k, l | Mates(w', k, l)
      ensures MatesAgree(w', k, l)
    {
      if k != i && k != j {
        assert MatesAgree(w, k, l);
      }
    }
  }

  lemma HelloKeepsInv(w: World, i: Id, frame: TextFrame, now: int)
    requires Inv(w) && i in w.peers && w.peers[i].state.Greeting?
    ensures Inv(AfterHello(w, i, frame, now))
  {
    if !frame.HelloText? {
      CloseEndsTogether(w, i, BadHello);
      EndingTogetherKeepsInv(w, AfterClose(w, i, BadHello), Together(w, i), RowsOf(w, i));
    } else if frame.token !in w.entries {
      HelloParks(w, i, frame, now);
    } else if w.entries[frame.token].Parked? {
      HelloPairs(w, i, frame, now);
    } else {
      HelloSupersedes(w, i, frame, now);
    }
  }

  function Parking(p: Peer, t: Token, ref: nat): Peer {
    p.(token := Some(t), pairRef := Some(ref), state := Waiting, socket := Notified(p.socket, WaitingFrame))
  }

  lemma HelloParks(w: World, i: Id, frame: TextFrame, now: int)
    requires Inv(w) && i in w.peers && w.peers[i].state.Greeting?
    requires frame.HelloText? && frame.token !in w.entries
    ensures
      var t := frame.token;
      AfterHello(w, i, frame, now)
      == ParkedIn(w, i, Parking(w.peers[i], t, w.minted), t, now)
    ensures Inv(AfterHello(w, i, frame, now))
  {
    var t := frame.token;
    assert SessionAgrees(w, i);
    JoinParkedKeepsInv(w, i, Parking(w.peers[i], t, w.minted), t, now);
    var w1 := AfterHello(w, i, frame, now);
    assert w1.peers == w.peers[i := Parking(w.peers[i], t, w.minted)];
  }

  function Pairing(p: Peer, t: Token, ref: nat, session: nat, now: int): Peer {
    MarkedPaired(p.(token := Some(t)), session, true, now).(pairRef := Some(ref))
  }

  lemma HelloPairs(w: World, i: Id, frame: TextFrame, now: int)
    requires Inv(w) && i in w.peers && w.peers[i].state.Greeting?
    requires frame.HelloText? && frame.token in w.entries && w.entries[frame.token].Parked?
    ensures
      var t := frame.token;
      var j := w.entries[t].peer;
      j != i && j in w.peers && w.peers[j].state.Waiting? &&
      AfterHello(w, i, frame, now)
      == SplicedIn(w, i, Pairing(w.peers[i], t, w.entries[t].pairRef, w.minted, now),
                   j, MarkedPaired(w.peers[j], w.minted, false, now), t, w.entries[t].pairRef, now)
    ensures Inv(AfterHello(w, i, frame, now))
  {
    var t := frame.token;
    var j := w.entries[t].peer;
    assert SessionAgrees(w, i) && EntryAgrees(w, t) && SessionAgrees(w, j);
    var p := Pairing(w.peers[i], t, w.entries[t].pairRef, w.minted, now);
    var q := MarkedPaired(w.peers[j], w.minted, false, now);
    JoinPairedKeepsInv(w, i, p, q, t, now);
    var w1 := AfterHello(w, i, frame, now);
    assert w1.peers == w.peers[j := q][i := p];
  }

  lemma PutsCommute(w: World, a: Id, x: Peer, b: Id, y: Peer, i: Id, p: Peer)
    requires i != a && i != b
    ensures With(With(With(w, i, p), a, x), b, y) == With(With(With(w, a, x), b, y), i, p)
  {
    assert With(With(With(w, i, p), a, x), b, y).peers == With(With(With(w, a, x), b, y), i, p).peers;
  }

  lemma EndSessionElsewhere(w: World, t: Token, code: CloseCode, i: Id, p: Peer)
    requires t in w.entries && RowSound(w, t) && w.entries[t].Spliced? && !w.entries[t].Holds(i)
    ensures AfterEndSession(With(w, i, p), t, code) == With(AfterEndSession(w, t, code), i, p)
  {
    var e := w.entries[t];
    PutsCommute(Dropped(w, t), e.first, Ended(w.peers[e.first], code), e.second, Ended(w.peers[e.second], code), i, p);
    assert Dropped(With(w, i, p), t) == With(Dropped(w, t), i, p);
  }

  lemma HelloSupersedes(w: World, i: Id, frame: TextFrame, now: int)
    requires Inv(w) && i in w.peers && w.peers[i].state.Greeting?
    requires frame.HelloText? && frame.token in w.entries && w.entries[frame.token].Spliced?
    ensures !w.entries[frame.token].Holds(i)
    ensures
      var t := frame.token;
      AfterHello(w, i, frame, now)
      == ParkedIn(AfterEndSession(w, t, Superseded), i, Parking(w.peers[i], t, w.minted), t, now)
    ensures Inv(AfterHello(w, i, frame, now))
  {
    var t := frame.token;
    HelloSupersedesTo(w, i, frame, now);
    EndSessionEndsTogether(w, t, Superseded);
    var w1 := AfterEndSession(w, t, Superseded);
    EndingTogetherKeepsInv(w, w1, {w.entries[t].first, w.entries[t].second}, {t});
    assert SessionAgrees(w, i);
    JoinParkedKeepsInv(w1, i, Parking(w.peers[i], t, w.minted), t, now);
  }

  lemma HelloSupersedesTo(w: World, i: Id, frame: TextFrame, now: int)
    requires Inv(w) && i in w.peers && w.peers[i].state.Greeting?
    requires frame.HelloText? && frame.token in w.entries && w.entries[frame.token].Spliced?
    ensures !w.entries[frame.token].Holds(i)
    ensures
      var t := frame.token;
      AfterHello(w, i, frame, now)
      == ParkedIn(AfterEndSession(w, t, Superseded), i, Parking(w.peers[i], t, w.minted), t, now)
  {
    var t := frame.token;
    NewcomerIsNotHeld(w, i, t);
    var p := w.peers[i].(token := Some(t));
    assert EntryAgrees(w, t);
    EndSessionElsewhere(w, t, Superseded, i, p);
    TwoPuts(AfterEndSession(w, t, Superseded), i, p, Parking(w.peers[i], t, w.minted));
  }

  lemma NewcomerIsNotHeld(w: World, i: Id, t: Token)
    requires Inv(w) && i in w.peers && w.peers[i].state.Greeting? && t in w.entries
    ensures !w.entries[t].Holds(i)
  {
    if w.entries[t].Holds(i) {
      HoldersCarryToken(w, t, i);
    }
    assert SessionAgrees(w, i);
  }

  lemma TwoPuts(w: World, i: Id, p: Peer, q: Peer)
    ensures With(With(w, i, p), i, q) == With(w, i, q)
  {
    assert With(With(w, i, p), i, q).peers == With(w, i, q).peers;
  }

  // ---------------------------------------------------------------- every event

  lemma VerdictKeepsInv(w: World, i: Id, verdict: (Verdict, Peer))
    requires Inv(w) && i in w.peers && !w.peers[i].state.Closed? && Quiet(w.peers[i], verdict.1)
    ensures Inv(AfterVerdict(w, i, verdict))
  {
    QuietKeepsInv(w, i, verdict.1);
    if verdict.0.Refuse? {
      CloseKeepsInv(With(w, i, verdict.1), i, verdict.0.code);
    }
  }

  lemma CloseKeepsInv(w: World, i: Id, code: CloseCode)
    requires Inv(w) && i in w.peers
    ensures Inv(AfterClose(w, i, code))
  {
    if !w.peers[i].state.Closed? {
      CloseEndsTogether(w, i, code);
      EndingTogetherKeepsInv(w, AfterClose(w, i, code), Together(w, i), RowsOf(w, i));
    }
  }

  lemma TextKeepsInv(cfg: Config, w: World, i: Id, frame: TextFrame, now: int)
    requires Inv(w) && i in w.peers
    ensures Inv(AfterText(cfg, w, i, frame, now))
  {
    if !w.peers[i].state.Closed? {
      var p := w.peers[i].(lastHeardAt := now);
      if p.state.Greeting? {
        QuietKeepsInv(w, i, p);
        HelloKeepsInv(With(w, i, p), i, frame, now);
      } else {
        VerdictKeepsInv(w, i, TextVerdict(cfg, p, frame, now));
      }
    }
  }

  lemma QuietPairKeepsInv(w: World, i: Id, p: Peer, j: Id, q: Peer)
    requires Inv(w) && i in w.peers && j in w.peers && i != j && Quiet(w.peers[i], p) && Quiet(w.peers[j], q)
    ensures Inv(With(With(w, i, p), j, q))
  {
    QuietKeepsInv(w, i, p);
    QuietKeepsInv(With(w, i, p), j, q);
  }

  lemma CarriedKeepsInv(w: World, i: Id, j: Id, payload: Payload, now: int)
    requires Inv(w) && i in w.peers && j in w.peers && i != j
    ensures Inv(Carried(w, i, j, payload, now))
  {
    QuietPairKeepsInv(w, i, CountedIn(w.peers[i], now), j, Delivered(w.peers[j], payload, now));
  }

  /** The partner relation: symmetric, irreflexive, and exactly the rows holding two sessions. */
  lemma PartnersAreMates(w: World, i: Id)
    requires Inv(w) && i in w.partners
    ensures i in w.peers && w.peers[i].state.Paired?
    ensures var j := w.partners[i];
            j != i && j in w.partners && w.partners[j] == i &&
            j in w.peers && w.peers[j].state.Paired? && w.peers[j].token == w.peers[i].token && Mates(w, i, j)
  {
    assert SessionAgrees(w, i);
    var t := w.peers[i].token.value;
    assert EntryAgrees(w, t);
    HoldersCarryToken(w, t, w.partners[i]);
    assert SessionAgrees(w, w.partners[i]);
  }

  lemma SpliceKeepsInv(cfg: Config, w: World, i: Id, payload: Payload, now: int)
    requires Inv(w) && i in w.peers
    ensures Inv(AfterSplice(cfg, w, i, payload, now))
  {
    if i !in w.partners {
      CloseKeepsInv(w, i, GoingAway);
    } else {
      PartnersAreMates(w, i);
      var j := w.partners[i];
      if w.peers[j].socket.backlog > cfg.maxBufferedBytes {
        CloseKeepsInv(w, j, SlowConsumer);
      } else {
        CarriedKeepsInv(w, i, j, payload, now);
      }
    }
  }

  lemma BinaryKeepsInv(cfg: Config, w: World, i: Id, payload: Payload, now: int)
    requires Inv(w) && i in w.peers
    ensures Inv(AfterBinary(cfg, w, i, payload, now))
  {
    if !w.peers[i].state.Closed? {
      var p := w.peers[i].(lastHeardAt := now);
      var (verdict, q) := BinaryVerdict(cfg, p, |payload|, now);
      if verdict.Refuse? {
        VerdictKeepsInv(w, i, (verdict, q));
      } else {
        QuietKeepsInv(w, i, q);
        SpliceKeepsInv(cfg, With(w, i, q), i, payload, now);
      }
    }
  }

  lemma SocketClosedKeepsInv(w: World, i: Id)
    requires Inv(w) && i in w.peers
    ensures Inv(AfterSocketClosed(w, i))
  {
    if !w.peers[i].state.Closed? {
      var q := w.peers[i].(state := Closed);
      ReleaseEndsTogether(w, i, q);
      EndingTogetherKeepsInv(w, AfterRelease(With(w, i, q), i), Together(w, i), RowsOf(w, i));
    }
  }

  lemma SweepOneKeepsInv(cfg: Config, w: World, i: Id, now: int)
    requires Inv(w) && i in w.peers
    ensures Inv(AfterSweepOne(cfg, w, i, now))
  {
    var p := w.peers[i];
    if p.state.Closed? {
    } else if GreetingOverdue(cfg, p, now) {
      CloseKeepsInv(w, i, BadHello);
    } else if IdleOverdue(cfg, p, now) {
      assert SessionAgrees(w, i);
      var t := p.token.value;
      EndSessionEndsTogether(w, t, Idle);
      EndingTogetherKeepsInv(w, AfterEndSession(w, t, Idle), {w.entries[t].first, w.entries[t].second}, {t});
    } else if !cfg.pings || now - p.lastHeardAt < cfg.keepaliveIntervalMs {
    } else if p.awaitingPong {
      ReleaseEndsTogether(w, i, CutOff(p));
      EndingTogetherKeepsInv(w, AfterCutOff(w, i), Together(w, i), RowsOf(w, i));
    } else {
      QuietKeepsInv(w, i, p.(awaitingPong := true, lastPingAt := now, socket := Put(p.socket, Ping)));
    }
  }

  lemma ExpiryKeepsInv(cfg: Config, w: World, now: int)
    requires Inv(w)
    ensures Inv(AfterExpiry(cfg, w, now))
  {
    ExpiryEndsTogether(cfg, w, now);
    EndingTogetherKeepsInv(w, AfterExpiry(cfg, w, now), Expired(cfg, w, now), RowsOverdue(cfg, w, now));
  }
}
