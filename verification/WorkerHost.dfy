/**
 * The Durable Object itself (relay/src/workers/rendezvousPair.ts): each handler rebuilds the sessions and the table from
 * the attachments, lets the relay's own classes act on them, and writes the attachments back. Each is proved to make the
 * step of `WorkerRun` it is named after.
 */
module WorkerHost {
  import opened Wrappers
  import opened RelayModel
  import opened RelayInvariant
  import opened RelayRun
  import opened RelayCore
  import opened RelayHost
  import opened WorkerModel
  import opened WorkerRun

  // ---------------------------------------------------------------- rebuilding, step by step

  function HeardPeer(p: Peer, heard: map<Id, int>, i: Id): Peer {
    if i in heard then Heard(p, heard[i]) else p
  }

  function HeardPeers(peers: map<Id, Peer>, heard: map<Id, int>): map<Id, Peer> {
    map i | i in peers :: HeardPeer(peers[i], heard, i)
  }

  function Part(peers: map<Id, Peer>, ids: seq<Id>): map<Id, Peer> {
    map i | i in ids && i in peers :: peers[i]
  }

  lemma {:induction false} WhereExtends(order: seq<Id>, i: Id, peers: map<Id, Peer>, kind: Kind)
    ensures Where(order + [i], peers, kind) == Where(order, peers, kind) + if i in peers && kind.Has(peers[i]) then [i] else []
  {
    if order == [] {
      assert (order + [i])[1..] == [];
      assert order + [i] == [i];
    } else {
      WhereExtends(order[1..], i, peers, kind);
      assert (order + [i])[1..] == order[1..] + [i];
      Associate(if order[0] in peers && kind.Has(peers[order[0]]) then [order[0]] else [], Where(order[1..], peers, kind),
                if i in peers && kind.Has(peers[i]) then [i] else []);
    }
  }

  lemma {:induction false} WhereHeard(order: seq<Id>, peers: map<Id, Peer>, heard: map<Id, int>, kind: Kind)
    ensures Where(order, HeardPeers(peers, heard), kind) == Where(order, peers, kind)
  {
    if order != [] {
      WhereHeard(order[1..], peers, heard, kind);
    }
  }

  lemma GroupHeard(order: seq<Id>, peers: map<Id, Peer>, heard: map<Id, int>, t: Token)
    ensures Group(order, HeardPeers(peers, heard), t) == Group(order, peers, t)
  {
    var live := Where(order, peers, Claiming(t));
    WhereHeard(order, peers, heard, Claiming(t));
    WhereHeard(live, peers, heard, InPair);
    WhereHeard(live, peers, heard, NotInPair);
  }

  lemma RestoredRowHeard(keep: seq<Id>, peers: map<Id, Peer>, heard: map<Id, int>)
    requires forall i :: i in keep ==> i in peers
    ensures RestoredRow(keep, HeardPeers(peers, heard)) == RestoredRow(keep, peers)
  {
    if keep != [] {
      assert keep[0] in keep;
    }
  }

  lemma SameTable(a: map<Token, Entry>, b: map<Token, Entry>)
    requires forall t :: (t in a <==> t in b) && (t in b ==> a[t] == b[t])
    ensures a == b
  {
  }

  lemma EntryHeard(order: seq<Id>, peers: map<Id, Peer>, heard: map<Id, int>, t: Token)
    ensures t in RestoredEntries(order, HeardPeers(peers, heard)) <==> t in RestoredEntries(order, peers)
    ensures t in RestoredEntries(order, peers) ==> RestoredEntries(order, HeardPeers(peers, heard))[t] == RestoredEntries(order, peers)[t]
  {
    GroupHeard(order, peers, heard, t);
    RestoredRowHeard(Keep(order, peers, t), peers, heard);
    ClaimedHeard(order, peers, heard);
  }

  lemma ClaimedHeard(order: seq<Id>, peers: map<Id, Peer>, heard: map<Id, int>)
    ensures Claimed(order, HeardPeers(peers, heard)) == Claimed(order, peers)
  {
    var now := HeardPeers(peers, heard);
    forall i | i in order && i in peers
      ensures now[i].token == peers[i].token && now[i].state == peers[i].state
    {
    }
  }

  lemma PartnersHeard(entries: map<Token, Entry>, peers: map<Id, Peer>, heard: map<Id, int>)
    ensures RestoredPartners(entries, HeardPeers(peers, heard)) == RestoredPartners(entries, peers)
  {
  }

  lemma TableHeard(order: seq<Id>, peers: map<Id, Peer>, heard: map<Id, int>)
    ensures RestoredEntries(order, HeardPeers(peers, heard)) == RestoredEntries(order, peers)
  {
    var a, b := RestoredEntries(order, HeardPeers(peers, heard)), RestoredEntries(order, peers);
    forall t ensures (t in a <==> t in b) && (t in b ==> a[t] == b[t]) {
      EntryHeard(order, peers, heard, t);
    }
    SameTable(a, b);
  }

  lemma PeersHeard(w: World, heard: map<Id, int>)
    ensures HeardAll(w, heard) == w.(peers := HeardPeers(w.peers, heard))
  {
    assert HeardAll(w, heard).peers == HeardPeers(w.peers, heard);
  }

  /** Keepalives heard meanwhile are no part of the table. */
  lemma RebuiltHeard(order: seq<Id>, peers: map<Id, Peer>, minted: nat, heard: map<Id, int>)
    ensures Rebuilt(order, HeardPeers(peers, heard), minted) == HeardAll(Rebuilt(order, peers, minted), heard)
  {
    TableHeard(order, peers, heard);
    PartnersHeard(RestoredEntries(order, peers), peers, heard);
    PeersHeard(Rebuilt(order, peers, minted), heard);
  }

  function EntriesOf(order: seq<Id>, peers: map<Id, Peer>, tokens: set<Token>): map<Token, Entry> {
    map t | t in tokens && RowOf(order, peers, t).Some? :: RowOf(order, peers, t).value
  }

  /** The world with the rows of some tokens put back. */
  function Partly(order: seq<Id>, peers: map<Id, Peer>, minted: nat, tokens: set<Token>): World {
    var entries := EntriesOf(order, peers, tokens);
    World(peers, entries, RestoredPartners(entries, peers), minted)
  }

  function Keep(order: seq<Id>, peers: map<Id, Peer>, t: Token): (keep: seq<Id>)
    ensures forall i :: i in keep ==> i in peers && peers[i].token == Some(t)
  {
    var group := Group(order, peers, t);
    if |group| > 2 then group[..2] else group
  }

  lemma PartnersUnchanged(entries: map<Token, Entry>, peers: map<Id, Peer>, t: Token, e: Entry)
    requires t !in entries && e.Parked?
    ensures RestoredPartners(entries[t := e], peers) == RestoredPartners(entries, peers)
  {
  }

  lemma PartnersOfPair(entries: map<Token, Entry>, peers: map<Id, Peer>, t: Token, e: Entry)
    requires t !in entries && e.Spliced? && e.first != e.second && e.first in peers && e.second in peers
    requires peers[e.first].token == Some(t) && peers[e.second].token == Some(t)
    ensures RestoredPartners(entries[t := e], peers) == RestoredPartners(entries, peers)[e.first := e.second][e.second := e.first]
  {
  }

  lemma OneMoreToken(order: seq<Id>, peers: map<Id, Peer>, tokens: set<Token>, t: Token)
    requires t !in tokens
    ensures EntriesOf(order, peers, tokens + {t}) ==
              if RowOf(order, peers, t).Some? then EntriesOf(order, peers, tokens)[t := RowOf(order, peers, t).value]
              else EntriesOf(order, peers, tokens)
  {
    var more, fewer := EntriesOf(order, peers, tokens + {t}), EntriesOf(order, peers, tokens);
    forall s | s != t
      ensures (s in more <==> s in fewer) && (s in fewer ==> more[s] == fewer[s])
    {
    }
    if RowOf(order, peers, t).Some? {
      SameTable(more, fewer[t := RowOf(order, peers, t).value]);
    } else {
      SameTable(more, fewer);
    }
  }

  /** Putting back one more row, as the loop over the groups does. */
  lemma OneMoreRestored(order: seq<Id>, peers: map<Id, Peer>, minted: nat, tokens: set<Token>, t: Token)
    requires Unrepeated(order) && t !in tokens && Keep(order, peers, t) != []
    ensures var keep := Keep(order, peers, t);
            var lead := peers[keep[0]];
            Restored(Partly(order, peers, minted, tokens), t, keep, if lead.pairRef.Some? then lead.pairRef.value else 0,
                     lead.sessionId, lead.openedAt) == Partly(order, peers, minted, tokens + {t})
  {
    var keep := Keep(order, peers, t);
    var entries := EntriesOf(order, peers, tokens);
    var row := RowOf(order, peers, t);
    OneMoreToken(order, peers, tokens, t);
    assert keep[0] in keep;
    if |keep| == 1 {
      PartnersUnchanged(entries, peers, t, row.value);
    } else if row.Some? {
      GroupHolds(order, peers, t);
      assert keep[1] in keep;
      PartnersOfPair(entries, peers, t, row.value);
    }
  }

  /** The row of a token put back from the sessions kept for it. */
  function RestoredFrom(w: World, t: Token, keep: seq<Id>): World {
    if keep == [] || keep[0] !in w.peers then w
    else
      var lead := w.peers[keep[0]];
      Restored(w, t, keep, if lead.pairRef.Some? then lead.pairRef.value else 0, lead.sessionId, lead.openedAt)
  }

  lemma RestoredNext(order: seq<Id>, peers: map<Id, Peer>, minted: nat, tokens: set<Token>, t: Token, keep: seq<Id>)
    requires Unrepeated(order) && t !in tokens && keep == Keep(order, peers, t) && keep != []
    ensures RestoredFrom(Partly(order, peers, minted, tokens), t, keep) == Partly(order, peers, minted, tokens + {t})
  {
    assert keep[0] in keep;
    OneMoreRestored(order, peers, minted, tokens, t);
  }

  lemma RowGoesBack(order: seq<Id>, peers: map<Id, Peer>, minted: nat, tokens: set<Token>, t: Token)
    requires Unrepeated(order) && t !in tokens && Where(order, peers, Claiming(t)) != []
    ensures Partly(order, peers, minted, tokens).peers == peers
    ensures RestoredFrom(Partly(order, peers, minted, tokens), t, Keep(order, peers, t)) == Partly(order, peers, minted, tokens + {t})
  {
    GroupHolds(order, peers, t);
    assert Where(order, peers, Claiming(t))[0] in Group(order, peers, t);
    RestoredNext(order, peers, minted, tokens, t, Keep(order, peers, t));
  }

  lemma NothingRestored(order: seq<Id>, stored: map<Id, Peer>, peers: map<Id, Peer>, minted: nat)
    requires Lists(order, stored) && peers.Keys == stored.Keys
    ensures World(Part(peers, order), map[], map[], minted) == Partly(order, peers, minted, {})
  {
    AllRestored(order, peers, minted);
    assert Part(peers, order) == peers;
  }

  lemma EverythingRestored(order: seq<Id>, stored: map<Id, Peer>, minted: nat, heard: map<Id, int>, byToken: map<Token, seq<Id>>)
    requires Grouped(byToken, order, HeardPeers(stored, heard))
    ensures Partly(order, HeardPeers(stored, heard), minted, byToken.Keys) == HeardAll(Rebuilt(order, stored, minted), heard)
  {
    AllRestored(order, HeardPeers(stored, heard), minted);
    GroupsAreClaimed(byToken, order, HeardPeers(stored, heard));
    RebuiltHeard(order, stored, minted, heard);
  }

  lemma SessionsArePeers(rendezvous: Rendezvous, sessions: map<Id, PeerSession>, peers: map<Id, Peer>)
    requires rendezvous.registry == sessions && rendezvous.World().peers == peers
    ensures sessions.Keys == peers.Keys && forall i :: i in sessions ==> sessions[i].Value() == peers[i]
  {
    assert rendezvous.World().peers.Keys == sessions.Keys;
  }

  lemma AllRestored(order: seq<Id>, peers: map<Id, Peer>, minted: nat)
    ensures Partly(order, peers, minted, Claimed(order, peers)) == Rebuilt(order, peers, minted)
    ensures Partly(order, peers, minted, {}) == World(peers, map[], map[], minted)
  {
    assert EntriesOf(order, peers, Claimed(order, peers)) == RestoredEntries(order, peers);
    assert EntriesOf(order, peers, {}) == map[];
  }

  // ---------------------------------------------------------------- the invariant of a rebuilt world

  lemma AlikeKeepsHostInv(home: Home, v: World, h: Host)
    requires Alike(v, h.world) && HostInv(home, h)
    ensures HostInv(home, h.(world := v))
  {
    AlikeKeepsInv(v, h.world);
    forall t | t in v.entries
      ensures RefAgrees(v, t)
    {
      assert SameRow(v.entries[t], h.world.entries[t]) && RefAgrees(h.world, t);
    }
  }

  function RebuiltHost(h: Host): Host {
    h.(world := Rebuilt(h.order, h.world.peers, h.world.minted))
  }

  /** What is rebuilt after any event satisfies the invariant again. */
  lemma RebuiltKeepsHostInv(home: Home, h: Host)
    requires HostInv(home, h)
    ensures HostInv(home, RebuiltHost(h))
  {
    ReparkedKeepsHostInv(home, h);
    RebuiltIsAlike(h.world, h.order);
    AlikeKeepsHostInv(home, Rebuilt(h.order, h.world.peers, h.world.minted), h.(world := Reparked(h.world)));
  }

  lemma AfterGoing(cfg: Config, home: Home, h: Host, i: Id, heard: map<Id, int>, w: World)
    requires i in h.world.peers && w == AfterSocketClosed(LineDownAt(HeardAll(h.world, heard), i), i)
    ensures Applied(cfg, home, h, Gone(i, heard)) == Host(Detached(w, i), Without(h.order, i))
  {
  }

  lemma AfterSaying(cfg: Config, home: Home, h: Host, i: Id, text: TextFrame, at: int, heard: map<Id, int>)
    requires i in h.world.peers
    ensures Applied(cfg, home, h, Say(i, text, at, heard)) == Host(AfterSay(cfg, home, HeardAll(h.world, heard), i, text, at), h.order)
  {
  }

  lemma AfterSending(cfg: Config, home: Home, h: Host, i: Id, payload: Payload, at: int, heard: map<Id, int>)
    requires i in h.world.peers
    ensures Applied(cfg, home, h, Send(i, payload, at, heard)) == Host(AfterBinary(cfg, HeardAll(h.world, heard), i, payload, at), h.order)
  {
  }

  lemma AfterAlarm(cfg: Config, home: Home, h: Host, at: int, heard: map<Id, int>)
    ensures Applied(cfg, home, h, Alarm(at, heard)) == Host(AfterSweep(cfg, HeardAll(h.world, heard), h.order, at), h.order)
  {
  }

  /** An arrival, in terms of what the sockets have attached. */
  lemma AfterArriving(cfg: Config, home: Home, h: Host, i: Id, at: int) returns (next: Host)
    requires HostInv(home, h) && i !in h.world.peers
    ensures next == Applied(cfg, home, h, Arrive(i, at)) && HostInv(home, next) && next.world.minted == h.world.minted
    ensures !Accepts(h) ==> next == h
    ensures Accepts(h) ==>
              next.order == h.order + [i] && next.world.peers == WithRoom(Greeters(h), h.world.peers)[i := Opened(cfg, at)]
    ensures forall j :: j in Greeters(h) ==> h.world.peers[j].token.None?
  {
    next := Applied(cfg, home, h, Arrive(i, at));
    AppliedKeepsHostInv(cfg, home, h, Arrive(i, at));
    forall j | j in Greeters(h)
      ensures h.world.peers[j].token.None?
    {
      assert SessionAgrees(h.world, j);
    }
  }

  function WithRoom(greeting: seq<Id>, peers: map<Id, Peer>): map<Id, Peer>
    requires forall i :: i in greeting ==> i in peers
  {
    if |greeting| < MAX_GREETING_SOCKETS then peers
    else
      var i := Oldest(greeting, peers);
      peers[i := Ended(peers[i], Capacity)]
  }

  lemma Counted(order: seq<Id>, id: Id, peers: map<Id, Peer>)
    requires id in peers
    ensures |Where(order + [id], peers, HoldingSlot)| ==
              |Where(order, peers, HoldingSlot)| + if peers[id].state.Greeting? || peers[id].state.Closed? then 0 else 1
    ensures Where(order + [id], peers, StillGreeting) ==
              if peers[id].state.Greeting? then Where(order, peers, StillGreeting) + [id] else Where(order, peers, StillGreeting)
  {
    WhereExtends(order, id, peers, HoldingSlot);
    WhereExtends(order, id, peers, StillGreeting);
  }

  // ---------------------------------------------------------------- the object

  class RendezvousPair {
    const config: Config
    const home: Home
    /** The sockets in the order they were accepted, and what each has attached. */
    var attached: seq<Id>
    var stored: map<Id, Peer>
    /** Random references given out so far, by whatever session of this object. */
    var minted: nat

    ghost function Object(): Host
      reads this
    {
      Host(Rebuilt(attached, stored, minted), attached)
    }

    ghost predicate Valid()
      reads this
    {
      HostInv(home, Object())
    }

    /** The object holds what a host does, its table apart. */
    ghost predicate Holds(h: Host)
      reads this
    {
      attached == h.order && stored == h.world.peers && minted == h.world.minted
    }

    constructor (config: Config, home: Home)
      ensures this.config == config && this.home == home && Valid() && Holds(EMPTY)
    {
      this.config, this.home := config, home;
      attached, stored, minted := [], map[], 0;
      new;
      RebuiltKeepsHostInv(home, EMPTY);
    }

    /** How far the rebuilding is: a session for each of some sockets, no table yet, and the live ones' ids by token. */
    ghost predicate Built(rendezvous: Rendezvous, sessions: map<Id, PeerSession>, byToken: map<Token, seq<Id>>, ids: seq<Id>, peers: map<Id, Peer>)
      reads this, rendezvous, rendezvous.registry.Values
    {
      && rendezvous.Valid() && rendezvous.registry == sessions
      && (forall i :: i in sessions <==> i in ids)
      && (forall i :: i in sessions ==> sessions[i].config == config)
      && rendezvous.World() == World(Part(peers, ids), map[], map[], minted)
      && Grouped(byToken, ids, peers)
    }

    /** Every session from its attachment, in the order of the sockets. */
    method BuildSessions(rendezvous: Rendezvous, heard: map<Id, int>)
      returns (sessions: map<Id, PeerSession>, byToken: map<Token, seq<Id>>)
      requires Lists(attached, stored) && Built(rendezvous, map[], map[], [], HeardPeers(stored, heard))
      modifies rendezvous`registry
      ensures Built(rendezvous, sessions, byToken, attached, HeardPeers(stored, heard))
      ensures forall i :: i in sessions ==> fresh(sessions[i])
    {
      ghost var peers := HeardPeers(stored, heard);
      sessions, byToken := map[], map[];
      for k := 0 to |attached|
        invariant Built(rendezvous, sessions, byToken, attached[..k], peers)
        invariant forall i :: i in sessions ==> fresh(sessions[i])
      {
        assert attached[..k + 1] == attached[..k] + [attached[k]];
        assert attached[k] in attached && attached[k] !in attached[..k];
        sessions, byToken := AddSession(rendezvous, sessions, byToken, attached[k], heard, attached[..k]);
      }
      assert attached[..|attached|] == attached;
    }

    method AddSession(rendezvous: Rendezvous, sessions: map<Id, PeerSession>, byToken: map<Token, seq<Id>>, id: Id, heard: map<Id, int>, ghost before: seq<Id>)
      returns (next: map<Id, PeerSession>, grouped: map<Token, seq<Id>>)
      requires id in stored && id !in before && Built(rendezvous, sessions, byToken, before, HeardPeers(stored, heard))
      modifies rendezvous`registry
      ensures Built(rendezvous, next, grouped, before + [id], HeardPeers(stored, heard))
      ensures forall i :: i in next ==> (i in sessions && next[i] == sessions[i]) || fresh(next[i])
    {
      ghost var peers := HeardPeers(stored, heard);
      var session := BuildOne(rendezvous, id, heard);
      assert Part(peers, before + [id]) == Part(peers, before)[id := peers[id]];
      next := sessions[id := session];
      grouped := Listed(byToken, id, session, before, peers);
    }

    method BuildOne(rendezvous: Rendezvous, id: Id, heard: map<Id, int>) returns (session: PeerSession)
      requires id in stored && rendezvous.Valid() && id !in rendezvous.registry
      modifies rendezvous`registry
      ensures rendezvous.Valid() && rendezvous.registry == old(rendezvous.registry)[id := session]
      ensures fresh(session) && session.config == config && session.id == id && session.Value() == HeardPeer(stored[id], heard, id)
      ensures rendezvous.World() == With(old(rendezvous.World()), id, session.Value())
    {
      ghost var w := rendezvous.World();
      session := new PeerSession.Restore(id, config, rendezvous, stored[id]);
      if id in heard {
        session.NoteHeard(heard[id]);
      }
      assert rendezvous.World() == w;
      rendezvous.Admit(session);
    }

    method Listed(byToken: map<Token, seq<Id>>, id: Id, session: PeerSession, ghost before: seq<Id>, ghost peers: map<Id, Peer>)
      returns (next: map<Token, seq<Id>>)
      requires Grouped(byToken, before, peers) && id in peers && session.Value() == peers[id]
      ensures Grouped(next, before + [id], peers)
    {
      next := byToken;
      if session.token.Some? && !session.state.Closed? {
        var t := session.token.value;
        next := byToken[t := (if t in byToken then byToken[t] else []) + [id]];
      }
      forall t ensures GroupedAt(next, before + [id], peers, t) {
        assert GroupedAt(byToken, before, peers, t);
        WhereExtends(before, id, peers, Claiming(t));
      }
    }

    /** The rows of every token put back, each from at most two of its live sessions, paired ones first. */
    method RestoreTable(rendezvous: Rendezvous, sessions: map<Id, PeerSession>, byToken: map<Token, seq<Id>>, ghost peers: map<Id, Peer>)
      requires Unrepeated(attached) && Grouped(byToken, attached, peers)
      requires rendezvous.Valid() && rendezvous.registry == sessions && rendezvous.World() == Partly(attached, peers, minted, {})
      modifies rendezvous
      ensures rendezvous.Valid() && rendezvous.registry == sessions
      ensures rendezvous.World() == Partly(attached, peers, minted, byToken.Keys)
    {
      var rest := byToken.Keys;
      ghost var done: set<Token> := {};
      while rest != {}
        invariant rest + done == byToken.Keys && rest !! done
        invariant rendezvous.Valid() && rendezvous.registry == sessions
        invariant rendezvous.World() == Partly(attached, peers, minted, done)
        decreases |rest|
      {
        var t :| t in rest;
        RestoreToken(rendezvous, sessions, byToken, t, peers, done);
        rest := rest - {t};
        done := done + {t};
      }
    }

    method RestoreToken(rendezvous: Rendezvous, sessions: map<Id, PeerSession>, byToken: map<Token, seq<Id>>, t: Token,
                        ghost peers: map<Id, Peer>, ghost done: set<Token>)
      requires Unrepeated(attached) && Grouped(byToken, attached, peers) && t in byToken && t !in done
      requires rendezvous.Valid() && rendezvous.registry == sessions && rendezvous.World() == Partly(attached, peers, minted, done)
      modifies rendezvous
      ensures rendezvous.Valid() && rendezvous.registry == sessions
      ensures rendezvous.World() == Partly(attached, peers, minted, done + {t})
    {
      assert GroupedAt(byToken, attached, peers, t);
      RowGoesBack(attached, peers, minted, done, t);
      RestoreRow(rendezvous, sessions, t, byToken[t], peers, Partly(attached, peers, minted, done));
    }

    method RestoreRow(rendezvous: Rendezvous, sessions: map<Id, PeerSession>, t: Token, live: seq<Id>, ghost peers: map<Id, Peer>, ghost w: World)
      requires live == Where(attached, peers, Claiming(t)) && live != []
      requires rendezvous.Valid() && rendezvous.registry == sessions && rendezvous.World() == w && w.peers == peers
      modifies rendezvous
      ensures rendezvous.Valid() && rendezvous.registry == sessions
      ensures rendezvous.World() == RestoredFrom(w, t, Keep(attached, peers, t))
    {
      var keep := KeepOf(rendezvous, sessions, live, t, peers, w);
      RestoreKept(rendezvous, sessions, t, keep, w);
    }

    method KeepOf(rendezvous: Rendezvous, sessions: map<Id, PeerSession>, live: seq<Id>, t: Token, ghost peers: map<Id, Peer>, ghost w: World)
      returns (keep: seq<Id>)
      requires rendezvous.registry == sessions && rendezvous.World() == w && w.peers == peers
      requires live == Where(attached, peers, Claiming(t)) && live != []
      ensures keep == Keep(attached, peers, t) && keep != [] && forall i :: i in keep ==> i in sessions
    {
      SessionsArePeers(rendezvous, sessions, peers);
      keep := KeepFrom(live, sessions, t, peers);
    }

    method KeepFrom(live: seq<Id>, sessions: map<Id, PeerSession>, t: Token, ghost peers: map<Id, Peer>) returns (keep: seq<Id>)
      requires sessions.Keys == peers.Keys && forall i :: i in sessions ==> sessions[i].Value() == peers[i]
      requires live == Where(attached, peers, Claiming(t)) && live != []
      ensures keep == Keep(attached, peers, t) && keep != []
    {
      PairedOnlyIs(live, sessions, peers);
      var ordered := PairedOnly(live, sessions, true) + PairedOnly(live, sessions, false);
      assert live[0] in live && live[0] in ordered;
      keep := if |ordered| > 2 then ordered[..2] else ordered;
    }

    method RestoreKept(rendezvous: Rendezvous, sessions: map<Id, PeerSession>, t: Token, keep: seq<Id>, ghost w: World)
      requires rendezvous.Valid() && rendezvous.registry == sessions && keep != [] && forall i :: i in keep ==> i in sessions
      requires rendezvous.World() == w
      modifies rendezvous
      ensures rendezvous.Valid() && rendezvous.registry == sessions
      ensures rendezvous.World() == RestoredFrom(w, t, keep)
    {
      assert keep[0] in keep;
      var lead := sessions[keep[0]];
      assert w.peers[keep[0]] == lead.Value();
      var kept := seq(|keep|, k requires 0 <= k < |keep| => if keep[k] in sessions then sessions[keep[k]] else lead);
      forall k | 0 <= k < |kept|
        ensures rendezvous.Knows(kept[k]) && kept[k].id == keep[k]
      {
        assert keep[k] in keep;
      }
      assert IdsIn(kept) == keep;
      rendezvous.Restore(t, kept, if lead.pairRef.Some? then lead.pairRef.value else 0, lead.sessionId, lead.openedAt);
    }

    /** The sessions and the table, rebuilt from the attachments alone. */
    method Rehydrate(heard: map<Id, int>) returns (sessions: map<Id, PeerSession>, rendezvous: Rendezvous)
      requires Lists(attached, stored)
      ensures fresh(rendezvous) && rendezvous.Valid() && rendezvous.registry == sessions
      ensures forall i :: i in sessions <==> i in attached
      ensures forall i :: i in sessions ==> fresh(sessions[i]) && sessions[i].config == config
      ensures rendezvous.World() == HeardAll(Rebuilt(attached, stored, minted), heard)
    {
      rendezvous := new Rendezvous.Anew(minted);
      sessions := Fill(rendezvous, heard);
    }

    method Fill(rendezvous: Rendezvous, heard: map<Id, int>) returns (sessions: map<Id, PeerSession>)
      requires Lists(attached, stored)
      requires rendezvous.Valid() && rendezvous.registry == map[] && rendezvous.World() == World(map[], map[], map[], minted)
      modifies rendezvous
      ensures rendezvous.Valid() && rendezvous.registry == sessions
      ensures forall i :: i in sessions <==> i in attached
      ensures forall i :: i in sessions ==> fresh(sessions[i]) && sessions[i].config == config
      ensures rendezvous.World() == HeardAll(Rebuilt(attached, stored, minted), heard)
    {
      ghost var peers := HeardPeers(stored, heard);
      var byToken: map<Token, seq<Id>>;
      assert Part(peers, []) == map[];
      sessions, byToken := BuildSessions(rendezvous, heard);
      NothingRestored(attached, stored, peers, minted);
      Complete(rendezvous, sessions, byToken, heard);
    }

    method Complete(rendezvous: Rendezvous, sessions: map<Id, PeerSession>, byToken: map<Token, seq<Id>>, ghost heard: map<Id, int>)
      requires Unrepeated(attached) && Grouped(byToken, attached, HeardPeers(stored, heard))
      requires rendezvous.Valid() && rendezvous.registry == sessions
      requires rendezvous.World() == Partly(attached, HeardPeers(stored, heard), minted, {})
      modifies rendezvous
      ensures rendezvous.Valid() && rendezvous.registry == sessions
      ensures rendezvous.World() == HeardAll(Rebuilt(attached, stored, minted), heard)
    {
      RestoreTable(rendezvous, sessions, byToken, HeardPeers(stored, heard));
      EverythingRestored(attached, stored, minted, heard, byToken);
    }

    /** Writes every session back to its socket. */
    method Persist(sessions: map<Id, PeerSession>, rendezvous: Rendezvous)
      requires rendezvous.registry == sessions && forall i :: i in sessions <==> i in attached
      modifies this`stored, this`minted
      ensures stored == rendezvous.World().peers && minted == rendezvous.World().minted
    {
      stored := map[];
      for k := 0 to |attached|
        invariant forall i :: i in stored <==> i in attached[..k]
        invariant forall i :: i in stored ==> i in sessions && stored[i] == sessions[i].Value()
      {
        assert attached[k] in attached;
        assert attached[..k + 1] == attached[..k] + [attached[k]];
        stored := stored[attached[k] := sessions[attached[k]].Value()];
      }
      assert attached[..|attached|] == attached;
      minted := rendezvous.minted;
    }

    lemma HoldsIsValid(h: Host)
      requires HostInv(home, h) && Holds(h)
      ensures Valid()
    {
      RebuiltKeepsHostInv(home, h);
    }

    /** An event begins: the sessions and the table, in a state they may act from. */
    method Begin(heard: map<Id, int>) returns (sessions: map<Id, PeerSession>, rendezvous: Rendezvous)
      requires Valid()
      ensures fresh(rendezvous) && rendezvous.Valid() && rendezvous.registry == sessions
      ensures forall i :: i in sessions <==> i in attached
      ensures forall i :: i in sessions <==> i in stored
      ensures forall i :: i in sessions ==> fresh(sessions[i]) && sessions[i].config == config
      ensures rendezvous.World() == HeardAll(Object().world, heard) && Ready(rendezvous, sessions)
    {
      assert Object().order == attached && Object().world.peers == stored;
      sessions, rendezvous := Rehydrate(heard);
      HeardKeepsInv(Object().world, heard);
    }

    /** An event ends: what the sessions became is written back, and the table is let go. */
    method Finish(sessions: map<Id, PeerSession>, rendezvous: Rendezvous, ghost was: Host, ghost e: HostEvent)
      requires rendezvous.registry == sessions && forall i :: i in sessions <==> i in attached
      requires HostInv(home, was) && Applied(config, home, was, e) == Host(rendezvous.World(), attached)
      modifies this`stored, this`minted
      ensures Valid() && Holds(Applied(config, home, was, e))
    {
      AppliedKeepsHostInv(config, home, was, e);
      WriteBack(sessions, rendezvous, Applied(config, home, was, e));
    }

    method WriteBack(sessions: map<Id, PeerSession>, rendezvous: Rendezvous, ghost next: Host)
      requires rendezvous.registry == sessions && forall i :: i in sessions <==> i in attached
      requires HostInv(home, next) && next == Host(rendezvous.World(), attached)
      modifies this`stored, this`minted
      ensures Valid() && Holds(next)
    {
      Persist(sessions, rendezvous);
      HoldsIsValid(next);
    }

    /** An event ends with one socket let go. */
    method Release(sessions: map<Id, PeerSession>, rendezvous: Rendezvous, i: Id, ghost was: Host, ghost e: HostEvent)
      requires rendezvous.registry == sessions && forall k :: k in sessions <==> k in attached
      requires HostInv(home, was) && Applied(config, home, was, e) == Host(Detached(rendezvous.World(), i), Without(attached, i))
      modifies this
      ensures Valid() && Holds(Applied(config, home, was, e))
    {
      ghost var next := Host(Detached(rendezvous.World(), i), Without(attached, i));
      AppliedKeepsHostInv(config, home, was, e);
      Persist(sessions, rendezvous);
      LetGo(i, next);
    }

    method LetGo(i: Id, ghost h: Host)
      requires HostInv(home, h) && h.order == Without(attached, i) && h.world.peers == stored - {i} && h.world.minted == minted
      modifies this
      ensures Valid() && Holds(h)
    {
      attached := Without(attached, i);
      stored := stored - {i};
      HoldsIsValid(h);
    }

    method OnText(i: Id, text: TextFrame, now: int, heard: map<Id, int>)
      requires Valid() && i in stored
      modifies this
      ensures Valid() && Holds(Applied(config, home, old(Object()), Say(i, text, now, heard)))
    {
      ghost var h := Object();
      var sessions, rendezvous := Begin(heard);
      Hear(rendezvous, sessions, i, text, now);
      AfterSaying(config, home, h, i, text, now, heard);
      Finish(sessions, rendezvous, h, Say(i, text, now, heard));
    }

    /** The sessions an event acts on, all of one table. */
    ghost predicate Ready(rendezvous: Rendezvous, sessions: map<Id, PeerSession>)
      reads this, rendezvous, rendezvous.registry.Values
    {
      && rendezvous.Valid() && rendezvous.registry == sessions && Inv(rendezvous.World())
      && forall i :: i in sessions ==> sessions[i].config == config
    }

    /** What is said reaches the session, unless it is a hello meant for some other object. */
    method Hear(rendezvous: Rendezvous, sessions: map<Id, PeerSession>, i: Id, text: TextFrame, now: int)
      requires Ready(rendezvous, sessions) && i in sessions
      modifies rendezvous, rendezvous.registry.Values
      ensures rendezvous.Valid() && rendezvous.registry == sessions
      ensures rendezvous.World() == AfterSay(config, home, old(rendezvous.World()), i, text, now)
    {
      var session := sessions[i];
      InvIsSound(rendezvous.World());
      assert rendezvous.World().peers[i] == session.Value();
      if session.state.Greeting? && text.HelloText? && !Names(home, text.token) {
        session.Close(BadHello);
      } else {
        session.OnText(text, now);
      }
    }

    method Take(rendezvous: Rendezvous, sessions: map<Id, PeerSession>, i: Id, payload: Payload, now: int)
      requires Ready(rendezvous, sessions) && i in sessions
      modifies rendezvous, rendezvous.registry.Values
      ensures rendezvous.Valid() && rendezvous.registry == sessions
      ensures rendezvous.World() == AfterBinary(config, old(rendezvous.World()), i, payload, now)
    {
      sessions[i].OnBinary(payload, now);
    }

    method LoseSocket(rendezvous: Rendezvous, sessions: map<Id, PeerSession>, i: Id)
      requires Ready(rendezvous, sessions) && i in sessions
      modifies rendezvous, rendezvous.registry.Values
      ensures rendezvous.Valid() && rendezvous.registry == sessions
      ensures rendezvous.World() == AfterSocketClosed(LineDownAt(old(rendezvous.World()), i), i)
    {
      ghost var w := rendezvous.World();
      var session := sessions[i];
      session.socket := session.socket.(open := false);
      rendezvous.SessionTouched(session);
      QuietKeepsInv(w, i, session.Value());
      session.OnSocketClosed();
    }

    method OnBinary(i: Id, payload: Payload, now: int, heard: map<Id, int>)
      requires Valid() && i in stored
      modifies this
      ensures Valid() && Holds(Applied(config, home, old(Object()), Send(i, payload, now, heard)))
    {
      ghost var h := Object();
      var sessions, rendezvous := Begin(heard);
      Take(rendezvous, sessions, i, payload, now);
      AfterSending(config, home, h, i, payload, now, heard);
      Finish(sessions, rendezvous, h, Send(i, payload, now, heard));
    }

    /** The socket closed: its partner is told, and the runtime lets the socket go. */
    method OnClose(i: Id, heard: map<Id, int>)
      requires Valid() && i in stored
      modifies this
      ensures Valid() && Holds(Applied(config, home, old(Object()), Gone(i, heard)))
    {
      ghost var h := Object();
      var sessions, rendezvous := Begin(heard);
      LoseSocket(rendezvous, sessions, i);
      AfterGoing(config, home, h, i, heard, rendezvous.World());
      Release(sessions, rendezvous, i, h, Gone(i, heard));
    }

    /** The object's sweep. */
    method OnAlarm(now: int, heard: map<Id, int>)
      requires Valid()
      modifies this
      ensures Valid() && Holds(Applied(config, home, old(Object()), Alarm(now, heard)))
    {
      ghost var h := Object();
      var sessions, rendezvous := Begin(heard);
      SweepAll(rendezvous, sessions, now);
      AfterAlarm(config, home, h, now, heard);
      Finish(sessions, rendezvous, h, Alarm(now, heard));
    }

    method SweepAll(rendezvous: Rendezvous, sessions: map<Id, PeerSession>, now: int)
      requires Ready(rendezvous, sessions) && forall i :: i in attached ==> i in sessions
      modifies rendezvous, rendezvous.registry.Values
      ensures rendezvous.Valid() && rendezvous.registry == sessions
      ensures rendezvous.World() == AfterSweep(config, old(rendezvous.World()), attached, now)
    {
      ghost var w := rendezvous.World();
      ExpireWaiters(rendezvous, now, w);
      ExpiryKeepsInv(config, w, now);
      SweepSessions(rendezvous, sessions, now, AfterExpiry(config, w, now));
    }

    method ExpireWaiters(rendezvous: Rendezvous, now: int, ghost w: World)
      requires rendezvous.Valid() && rendezvous.World() == w && Inv(w)
      modifies rendezvous, rendezvous.registry.Values
      ensures rendezvous.Valid() && rendezvous.registry == old(rendezvous.registry)
      ensures rendezvous.World() == AfterExpiry(config, w, now)
    {
      var expired := rendezvous.ExpiredWaiters(config, now);
      NobodyExpiredYet(w);
      for k := 0 to |expired|
        invariant rendezvous.Valid() && rendezvous.registry == old(rendezvous.registry)
        invariant rendezvous.World() == PartlyExpired(w, IdSet(expired[..k]))
      {
        IdSetExtends(expired, k);
        ExpiredIsWaiting(config, w, now, expired[k].id);
        OneMoreExpires(w, IdSet(expired[..k]), expired[k].id);
        PartlyExpiredIsSound(w, IdSet(expired[..k]));
        expired[k].Close(PairTimeout);
      }
      assert expired[..|expired|] == expired;
      AllExpired(config, w, now);
    }

    method SweepSessions(rendezvous: Rendezvous, sessions: map<Id, PeerSession>, now: int, ghost w: World)
      requires rendezvous.Valid() && rendezvous.registry == sessions && rendezvous.World() == w && Inv(w)
      requires forall i :: i in attached ==> i in sessions && sessions[i].config == config
      modifies rendezvous, rendezvous.registry.Values
      ensures rendezvous.Valid() && rendezvous.registry == sessions
      ensures rendezvous.World() == SweptAll(config, w, attached, now)
    {
      for k := 0 to |attached|
        invariant rendezvous.Valid() && rendezvous.registry == sessions && Inv(rendezvous.World())
        invariant rendezvous.World() == SweptAll(config, w, attached[..k], now)
      {
        assert attached[k] in attached;
        SweepOneKeepsInv(config, rendezvous.World(), attached[k], now);
        SweptAllExtends(config, w, attached, k, now);
        assert attached[k] in rendezvous.World().peers;
        sessions[attached[k]].Sweep(now);
      }
      assert attached[..|attached|] == attached;
    }

    // -------------------------------------------------------------- arrivals

    /** The live sockets: how many hold a pairing slot, and which have said nothing yet. */
    method Census() returns (pairing: nat, greeting: seq<Id>)
      requires Lists(attached, stored)
      ensures pairing == |Where(attached, stored, HoldingSlot)| && greeting == Where(attached, stored, StillGreeting)
    {
      pairing, greeting := 0, [];
      for k := 0 to |attached|
        invariant pairing == |Where(attached[..k], stored, HoldingSlot)| && greeting == Where(attached[..k], stored, StillGreeting)
      {
        assert attached[k] in attached && attached[..k + 1] == attached[..k] + [attached[k]];
        pairing, greeting := CountOne(attached[..k], attached[k], pairing, greeting);
      }
      assert attached[..|attached|] == attached;
    }

    method CountOne(ghost before: seq<Id>, id: Id, pairing: nat, greeting: seq<Id>) returns (slots: nat, greeters: seq<Id>)
      requires id in stored
      requires pairing == |Where(before, stored, HoldingSlot)| && greeting == Where(before, stored, StillGreeting)
      ensures slots == |Where(before + [id], stored, HoldingSlot)| && greeters == Where(before + [id], stored, StillGreeting)
    {
      Counted(before, id, stored);
      slots, greeters := pairing, greeting;
      if stored[id].state.Greeting? {
        greeters := greeting + [id];
      } else if !stored[id].state.Closed? {
        slots := pairing + 1;
      }
    }

    method FindOldest(greeting: seq<Id>) returns (oldest: Id)
      requires greeting != [] && forall i :: i in greeting ==> i in stored
      ensures oldest == Oldest(greeting, stored)
    {
      oldest := greeting[0];
      assert greeting[..1] == [oldest];
      for k := 1 to |greeting|
        invariant oldest == Oldest(greeting[..k], stored)
      {
        assert greeting[..k + 1][..k] == greeting[..k];
        assert greeting[k] in greeting;
        if stored[greeting[k]].openedAt < stored[oldest].openedAt {
          oldest := greeting[k];
        }
      }
      assert greeting[..|greeting|] == greeting;
    }

    /** One socket closed on its own account, with a table of its own, empty. */
    method CloseAlone(i: Id, code: CloseCode)
      requires i in stored && stored[i].token.None?
      modifies this`stored
      ensures stored == old(stored)[i := Ended(old(stored)[i], code)]
    {
      var rendezvous := new Rendezvous();
      var session := new PeerSession.Restore(i, config, rendezvous, stored[i]);
      assert rendezvous.World() == World(map[], map[], map[], 0);
      rendezvous.Admit(session);
      session.Close(code);
      assert rendezvous.World().peers[i] == session.Value();
      stored := stored[i := session.Value()];
    }

    /** Takes an upgrade, making room by the one silent longest; false only if the pairing slots are full. */
    method Accept(i: Id, now: int) returns (accepted: bool)
      requires Valid() && i !in stored
      modifies this
      ensures accepted == Accepts(old(Object()))
      ensures Valid() && Holds(Applied(config, home, old(Object()), Arrive(i, now)))
    {
      ghost var h := Object();
      var pairing, greeting := Census();
      if pairing >= MAX_PAIRING_SOCKETS {
        return false;
      }
      Attach(i, now, greeting, h);
      return true;
    }

    method Attach(i: Id, now: int, greeting: seq<Id>, ghost h: Host)
      requires HostInv(home, h) && Holds(h) && Accepts(h) && greeting == Greeters(h) && i !in stored
      modifies this
      ensures Valid() && Holds(Applied(config, home, h, Arrive(i, now)))
    {
      ghost var next := AfterArriving(config, home, h, i, now);
      MakeRoom(greeting);
      var rendezvous := new Rendezvous();
      var session := new PeerSession(i, config, rendezvous, now);
      attached := attached + [i];
      stored := stored[i := session.Value()];
      HoldsIsValid(next);
    }

    method MakeRoom(greeting: seq<Id>)
      requires forall i :: i in greeting ==> i in stored && stored[i].token.None?
      modifies this`stored
      ensures stored == WithRoom(greeting, old(stored))
    {
      if |greeting| >= MAX_GREETING_SOCKETS {
        var oldest := FindOldest(greeting);
        CloseAlone(oldest, Capacity);
      }
    }
  }

  /** Those whose session is paired, or those whose is not, in order. */
  function PairedOnly(ids: seq<Id>, sessions: map<Id, PeerSession>, paired: bool): seq<Id>
    requires forall i :: i in ids ==> i in sessions
    reads sessions.Values
  {
    if ids == [] then []
    else (if sessions[ids[0]].state.Paired? == paired then [ids[0]] else []) + PairedOnly(ids[1..], sessions, paired)
  }

  lemma {:induction false} PairedOnlyIs(ids: seq<Id>, sessions: map<Id, PeerSession>, peers: map<Id, Peer>)
    requires forall i :: i in ids ==> i in sessions && i in peers && sessions[i].Value() == peers[i]
    ensures PairedOnly(ids, sessions, true) == Where(ids, peers, InPair)
    ensures PairedOnly(ids, sessions, false) == Where(ids, peers, NotInPair)
  {
    if ids != [] {
      PairedOnlyIs(ids[1..], sessions, peers);
      assert ids[0] in ids;
    }
  }

  lemma GroupsAreClaimed(byToken: map<Token, seq<Id>>, order: seq<Id>, peers: map<Id, Peer>)
    requires Grouped(byToken, order, peers)
    ensures byToken.Keys == Claimed(order, peers)
  {
    forall t ensures t in byToken <==> t in Claimed(order, peers) {
      assert GroupedAt(byToken, order, peers, t);
      var live := Where(order, peers, Claiming(t));
      if live != [] {
        assert live[0] in live;
      }
      if t in Claimed(order, peers) {
        var i :| i in order && i in peers && peers[i].token == Some(t) && !peers[i].state.Closed?;
        assert i in live;
      }
    }
  }

  ghost predicate GroupedAt(byToken: map<Token, seq<Id>>, ids: seq<Id>, peers: map<Id, Peer>, t: Token) {
    var live := Where(ids, peers, Claiming(t));
    if t in byToken then byToken[t] == live && live != [] else live == []
  }

  ghost predicate Grouped(byToken: map<Token, seq<Id>>, ids: seq<Id>, peers: map<Id, Peer>) {
    forall t {:trigger GroupedAt(byToken, ids, peers, t)} :: GroupedAt(byToken, ids, peers, t)
  }
}
