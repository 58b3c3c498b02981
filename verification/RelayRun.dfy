/**
 * Whole runs of the relay: any sequence of connections, frames, pongs, hang-ups, sweeps, line failures
 * and backlogs, at any clock readings, in any order.
 */
module RelayRun {
  import opened Wrappers
  import opened RateLimit
  import opened RelayModel
  import opened RelayInvariant

  /** The container host: its world and, in order of arrival, the connections it still holds. */
  datatype Relay = Relay(world: World, connections: seq<Id>, shuttingDown: bool)

  datatype Event =
    | Connect(i: Id, at: int)
    | TextIn(i: Id, text: TextFrame, at: int)
    | BinaryIn(i: Id, payload: Payload, at: int)
    | PongIn(i: Id, at: int)
    | Hangup(i: Id)
    | SweepAt(at: int)
    | Shutdown
    | LineDown(i: Id)
    | Backlog(i: Id, bytes: nat)

  const START := Relay(World(map[], map[], map[], 0), [], false)

  function Without(ids: seq<Id>, i: Id): seq<Id> {
    if ids == [] then []
    else if ids[0] == i then Without(ids[1..], i)
    else [ids[0]] + Without(ids[1..], i)
  }

  /** The sweep visits the connections in order; each sees what the ones before it did. */
  function SweptAll(cfg: Config, w: World, order: seq<Id>, now: int): World {
    if order == [] then w
    else
      var before := SweptAll(cfg, w, order[..|order| - 1], now);
      var i := order[|order| - 1];
      if i in before.peers then AfterSweepOne(cfg, before, i, now) else before
  }

  function AfterSweep(cfg: Config, w: World, order: seq<Id>, now: int): World {
    SweptAll(cfg, AfterExpiry(cfg, w, now), order, now)
  }

  /** Shutting down empties the table first, so that every peer is told the relay is going and none that it was left. */
  function AfterShutdown(w: World, order: seq<Id>): World {
    World(map i | i in w.peers :: if i in order then Ended(w.peers[i], GoingAway) else w.peers[i], map[], map[], w.minted)
  }

  function LineDownAt(w: World, i: Id): World
    requires i in w.peers
  {
    With(w, i, w.peers[i].(socket := w.peers[i].socket.(open := false)))
  }

  /** What the world becomes; an event of a session that does not exist is no event. */
  function WorldAfter(cfg: Config, r: Relay, e: Event): World {
    var w := r.world;
    match e
    case Connect(i, at) => if i in w.peers || r.shuttingDown then w else With(w, i, Opened(cfg, at))
    case TextIn(i, text, at) => if i in w.peers then AfterText(cfg, w, i, text, at) else w
    case BinaryIn(i, payload, at) => if i in w.peers then AfterBinary(cfg, w, i, payload, at) else w
    case PongIn(i, at) => if i in w.peers then AfterPong(w, i, at) else w
    case Hangup(i) => if i in w.peers then AfterSocketClosed(LineDownAt(w, i), i) else w
    case SweepAt(at) => AfterSweep(cfg, w, r.connections, at)
    case Shutdown => AfterShutdown(w, r.connections)
    case LineDown(i) => if i in w.peers then LineDownAt(w, i) else w
    case Backlog(i, bytes) =>
      if i in w.peers then With(w, i, w.peers[i].(socket := w.peers[i].socket.(backlog := bytes))) else w
  }

  function ConnectionsAfter(r: Relay, e: Event): seq<Id> {
    match e
    case Connect(i, _) => if i in r.world.peers || r.shuttingDown then r.connections else r.connections + [i]
    case Hangup(i) => Without(r.connections, i)
    case _ => r.connections
  }

  function Step(cfg: Config, r: Relay, e: Event): Relay {
    Relay(WorldAfter(cfg, r, e), ConnectionsAfter(r, e), r.shuttingDown || e.Shutdown?)
  }

  function Run(cfg: Config, es: seq<Event>): Relay {
    if es == [] then START
    else Step(cfg, Run(cfg, es[..|es| - 1]), es[|es| - 1])
  }

  lemma RunExtends(cfg: Config, es: seq<Event>, e: Event)
    ensures Run(cfg, es + [e]) == Step(cfg, Run(cfg, es), e)
  {
    assert (es + [e])[..|es + [e]| - 1] == es;
  }

  /** The invariant of a host: the world agrees with itself, and no live session escapes the sweep. */
  ghost predicate RelayInv(r: Relay) {
    Inv(r.world) && Watched(r.world, r.connections)
  }

  ghost predicate Watched(w: World, connections: seq<Id>) {
    && (forall k :: k in connections ==> k in w.peers)
    && (forall i {:trigger w.peers[i]} :: i in w.peers && !w.peers[i].state.Closed? ==> i in connections)
  }

  // ---------------------------------------------------------------- every step keeps it

  lemma WithoutHasTheRest(ids: seq<Id>, i: Id)
    ensures forall k :: k in Without(ids, i) <==> k in ids && k != i
  {
  }

  lemma {:induction false} SweptAllKeepsInv(cfg: Config, w: World, order: seq<Id>, now: int)
    requires Inv(w)
    ensures Inv(SweptAll(cfg, w, order, now))
  {
    if order != [] {
      var before := SweptAll(cfg, w, order[..|order| - 1], now);
      SweptAllKeepsInv(cfg, w, order[..|order| - 1], now);
      if order[|order| - 1] in before.peers {
        SweepOneKeepsInv(cfg, before, order[|order| - 1], now);
      }
    }
  }

  lemma ConnectKeepsInv(cfg: Config, w: World, i: Id, at: int)
    requires Inv(w) && i !in w.peers
    ensures Inv(With(w, i, Opened(cfg, at)))
  {
    var w' := With(w, i, Opened(cfg, at));
    forall k | k in w'.peers
      ensures SessionAgrees(w', k)
    {
      if k != i {
        assert SessionAgrees(w, k);
      }
    }
    forall t | t in w'.entries
      ensures EntryAgrees(w', t)
    {
      assert EntryAgrees(w, t);
    }
    forall k, j | Mates(w', k, j)
      ensures MatesAgree(w', k, j)
    {
      assert Mates(w, k, j);
    }
    forall k, j, l | Mates(w', k, j) && Mates(w', k, l)
      ensures j == l
    {
      assert Mates(w, k, j) && Mates(w, k, l);
    }
  }

  lemma ShutdownKeepsInv(w: World, order: seq<Id>)
    requires Inv(w) && Watched(w, order)
    ensures Inv(AfterShutdown(w, order))
  {
    var w' := AfterShutdown(w, order);
    forall k | k in w'.peers
      ensures SessionAgrees(w', k) && w'.peers[k].state.Closed?
    {
    }
    forall k, j | Mates(w', k, j)
      ensures MatesAgree(w', k, j)
    {
      assert Mates(w, k, j) && MatesAgree(w, k, j);
    }
    forall k, j, l | Mates(w', k, j) && Mates(w', k, l)
      ensures j == l
    {
      assert Mates(w, k, j) && Mates(w, k, l);
    }
  }

  lemma WorldKeepsInv(cfg: Config, r: Relay, e: Event)
    requires RelayInv(r)
    ensures Inv(WorldAfter(cfg, r, e))
  {
    var w := r.world;
    match e
    case Connect(i, at) =>
      if i !in w.peers {
        ConnectKeepsInv(cfg, w, i, at);
      }
    case TextIn(i, text, at) =>
      if i in w.peers {
        TextKeepsInv(cfg, w, i, text, at);
      }
    case BinaryIn(i, payload, at) =>
      if i in w.peers {
        BinaryKeepsInv(cfg, w, i, payload, at);
      }
    case PongIn(i, at) =>
      if i in w.peers {
        QuietKeepsInv(w, i, w.peers[i].(awaitingPong := false, lastHeardAt := at));
      }
    case Hangup(i) =>
      if i in w.peers {
        QuietKeepsInv(w, i, w.peers[i].(socket := w.peers[i].socket.(open := false)));
        SocketClosedKeepsInv(LineDownAt(w, i), i);
      }
    case SweepAt(at) =>
      ExpiryKeepsInv(cfg, w, at);
      SweptAllKeepsInv(cfg, AfterExpiry(cfg, w, at), r.connections, at);
    case Shutdown =>
      ShutdownKeepsInv(w, r.connections);
    case LineDown(i) =>
      if i in w.peers {
        QuietKeepsInv(w, i, w.peers[i].(socket := w.peers[i].socket.(open := false)));
      }
    case Backlog(i, bytes) =>
      if i in w.peers {
        QuietKeepsInv(w, i, w.peers[i].(socket := w.peers[i].socket.(backlog := bytes)));
      }
  }
}
