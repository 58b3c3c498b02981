/**
 * Admission by address (relay/src/node/server.ts): how many connections each address has open, how fast it opens
 * them, and the pruning of the table that remembers it.
 *
 * One clock reading an event. The parse of the client's address and the path are given; a bucket is a value.
 */
module Admission {
  import opened RateLimit
  import opened Wrappers

  type Id = nat

  datatype Config = Config(maxConnections: nat, maxPerAddress: nat, maxPerMinute: nat)

  datatype Record = Record(connections: int, handshakes: BucketState, lastSeen: int)

  /** The records, the upgrades not yet completed, and the connections, each by its address. */
  datatype Table = Table(records: map<string, Record>, half: map<Id, string>, live: map<Id, string>, shuttingDown: bool)

  datatype Event =
    | Upgrade(id: Id, address: string, onPath: bool, now: int)
    | Complete(id: Id)
    | Abandon(id: Id, now: int)
    | Closed(id: Id, now: int)
    | Sweep(now: int)
    | Shutdown

  datatype Outcome = Quiet | Admitted | Unavailable | NotFound | ServerFull | AddressFull | TooFast

  datatype Stepped = Stepped(table: Table, outcome: Outcome)

  const SWEEP_IDLE_MS := 60_000

  // ---------------------------------------------------------------- steps

  function AddressLimit(cfg: Config): nat {
    if cfg.maxConnections * 4 > 1024 then cfg.maxConnections * 4 else 1024
  }

  function Rate(cfg: Config): real {
    cfg.maxPerMinute as real / 60.0
  }

  function Burst(cfg: Config): real {
    cfg.maxPerMinute as real
  }

  predicate Prunable(record: Record, now: int, idleForMs: int) {
    record.connections <= 0 && now - record.lastSeen > idleForMs
  }

  function Pruned(records: map<string, Record>, now: int, idleForMs: int): map<string, Record> {
    map a | a in records && !Prunable(records[a], now, idleForMs) :: records[a]
  }

  function NewRecord(cfg: Config, now: int): Record {
    Record(0, BucketState(Burst(cfg), now), now)
  }

  /** The records once `address` has one, seen now; a full table is pruned to make room. */
  function Recorded(cfg: Config, records: map<string, Record>, address: string, now: int): (next: map<string, Record>)
    ensures address in next
  {
    if address in records then records[address := records[address].(lastSeen := now)]
    else (if |records| >= AddressLimit(cfg) then Pruned(records, now, 0) else records)[address := NewRecord(cfg, now)]
  }

  function Handshake(cfg: Config, record: Record, now: int): Taken {
    Charged(record.handshakes, Rate(cfg), Burst(cfg), 1.0, now)
  }

  /** An upgrade within both caps pays for itself out of its address's bucket. */
  function Spent(cfg: Config, t: Table, id: Id, address: string, now: int): Stepped
    requires address in t.records
  {
    var taken := Handshake(cfg, t.records[address], now);
    var charged := t.records[address].(handshakes := taken.state);
    if !taken.ok then Stepped(t.(records := t.records[address := charged]), TooFast)
    else
      Stepped(t.(records := t.records[address := charged.(connections := charged.connections + 1)],
                 half := t.half[id := address]), Admitted)
  }

  /** An upgrade, its address on record. */
  function Decided(cfg: Config, t: Table, id: Id, address: string, now: int): Stepped
    requires address in t.records
  {
    if |t.live| >= cfg.maxConnections then Stepped(t, ServerFull)
    else if t.records[address].connections >= cfg.maxPerAddress then Stepped(t, AddressFull)
    else Spent(cfg, t, id, address, now)
  }

  function Upgraded(cfg: Config, t: Table, id: Id, address: string, onPath: bool, now: int): Stepped {
    if t.shuttingDown then Stepped(t, Unavailable)
    else if !onPath then Stepped(t, NotFound)
    else Decided(cfg, t.(records := Recorded(cfg, t.records, address, now)), id, address, now)
  }

  /** One connection fewer at an address, if it is on record. */
  function Released(records: map<string, Record>, address: string, now: int): map<string, Record> {
    if address !in records then records
    else records[address := records[address].(connections := records[address].connections - 1, lastSeen := now)]
  }

  function Step(cfg: Config, t: Table, e: Event): Stepped {
    match e
    case Upgrade(id, address, onPath, now) =>
      if id in t.half || id in t.live then Stepped(t, Quiet) else Upgraded(cfg, t, id, address, onPath, now)
    case Complete(id) =>
      if id !in t.half then Stepped(t, Quiet)
      else Stepped(t.(half := t.half - {id}, live := t.live[id := t.half[id]]), Quiet)
    case Abandon(id, now) =>
      if id !in t.half then Stepped(t, Quiet)
      else Stepped(t.(half := t.half - {id}, records := Released(t.records, t.half[id], now)), Quiet)
    case Closed(id, now) =>
      if id !in t.live then Stepped(t, Quiet)
      else Stepped(t.(live := t.live - {id}, records := Released(t.records, t.live[id], now)), Quiet)
    case Sweep(now) => Stepped(t.(records := Pruned(t.records, now, SWEEP_IDLE_MS)), Quiet)
    case Shutdown => Stepped(t.(shuttingDown := true), Quiet)
  }

  const START := Table(map[], map[], map[], false)

  function Run(cfg: Config, events: seq<Event>): Table {
    if events == [] then START else Step(cfg, Run(cfg, events[..|events| - 1]), events[|events| - 1]).table
  }

  // ---------------------------------------------------------------- counting

  function Of(ids: map<Id, string>, address: string): set<Id> {
    set i | i in ids && ids[i] == address
  }

  function Held(t: Table, address: string): nat {
    |Of(t.half, address)| + |Of(t.live, address)|
  }

  /** A record's count is what its address holds, an address that holds anything has a record, and none is over its share. */
  ghost predicate CountedAt(cfg: Config, t: Table, address: string) {
    if address in t.records then
      t.records[address].connections == Held(t, address) && (Held(t, address) <= cfg.maxPerAddress || Held(t, address) == 0)
    else Held(t, address) == 0
  }

  ghost predicate Counted(cfg: Config, t: Table) {
    && t.half.Keys !! t.live.Keys
    && forall address {:trigger CountedAt(cfg, t, address)} :: CountedAt(cfg, t, address)
  }

  lemma OneMore(ids: map<Id, string>, id: Id, address: string, other: string)
    requires id !in ids
    ensures |Of(ids[id := address], other)| == |Of(ids, other)| + if address == other then 1 else 0
  {
    if address == other {
      assert Of(ids[id := address], other) == Of(ids, other) + {id};
    } else {
      assert Of(ids[id := address], other) == Of(ids, other);
    }
  }

  lemma OneFewer(ids: map<Id, string>, id: Id, other: string)
    requires id in ids
    ensures |Of(ids - {id}, other)| == |Of(ids, other)| - if ids[id] == other then 1 else 0
  {
    if ids[id] == other {
      assert Of(ids, other) == Of(ids - {id}, other) + {id};
    } else {
      assert Of(ids, other) == Of(ids - {id}, other);
    }
  }

  lemma PruningKeepsCounted(cfg: Config, t: Table, now: int, idleForMs: int)
    requires Counted(cfg, t)
    ensures Counted(cfg, t.(records := Pruned(t.records, now, idleForMs)))
  {
    var next := t.(records := Pruned(t.records, now, idleForMs));
    forall a ensures CountedAt(cfg, next, a) {
      assert CountedAt(cfg, t, a);
    }
  }

  lemma RecordingKeepsCounted(cfg: Config, t: Table, address: string, now: int)
    requires Counted(cfg, t)
    ensures Counted(cfg, t.(records := Recorded(cfg, t.records, address, now)))
  {
    var roomy := if address !in t.records && |t.records| >= AddressLimit(cfg) then t.(records := Pruned(t.records, now, 0)) else t;
    PruningKeepsCounted(cfg, t, now, 0);
    var next := t.(records := Recorded(cfg, t.records, address, now));
    forall a ensures CountedAt(cfg, next, a) {
      assert CountedAt(cfg, roomy, a);
      assert CountedAt(cfg, t, a);
    }
  }

  lemma DecidingKeepsCounted(cfg: Config, t: Table, id: Id, address: string, now: int)
    requires Counted(cfg, t) && address in t.records && id !in t.half && id !in t.live
    ensures Counted(cfg, Decided(cfg, t, id, address, now).table)
  {
    var next := Decided(cfg, t, id, address, now).table;
    forall a ensures CountedAt(cfg, next, a) {
      assert CountedAt(cfg, t, a);
      OneMore(t.half, id, address, a);
    }
  }

  lemma ReleasingKeepsCounted(cfg: Config, t: Table, id: Id, now: int)
    requires Counted(cfg, t)
    ensures id in t.half ==> Counted(cfg, t.(half := t.half - {id}, records := Released(t.records, t.half[id], now)))
    ensures id in t.live ==> Counted(cfg, t.(live := t.live - {id}, records := Released(t.records, t.live[id], now)))
  {
    if id in t.half {
      var next := t.(half := t.half - {id}, records := Released(t.records, t.half[id], now));
      forall a ensures CountedAt(cfg, next, a) {
        assert CountedAt(cfg, t, a);
        OneFewer(t.half, id, a);
        assert id in Of(t.half, t.half[id]);
      }
    }
    if id in t.live {
      var next := t.(live := t.live - {id}, records := Released(t.records, t.live[id], now));
      forall a ensures CountedAt(cfg, next, a) {
        assert CountedAt(cfg, t, a);
        OneFewer(t.live, id, a);
        assert id in Of(t.live, t.live[id]);
      }
    }
  }

  lemma CompletingKeepsCounted(cfg: Config, t: Table, id: Id)
    requires Counted(cfg, t) && id in t.half
    ensures Counted(cfg, t.(half := t.half - {id}, live := t.live[id := t.half[id]]))
  {
    var next := t.(half := t.half - {id}, live := t.live[id := t.half[id]]);
    forall a ensures CountedAt(cfg, next, a) {
      assert CountedAt(cfg, t, a);
      OneFewer(t.half, id, a);
      OneMore(t.live, id, t.half[id], a);
    }
  }

  lemma StepKeepsCounted(cfg: Config, t: Table, e: Event)
    requires Counted(cfg, t)
    ensures Counted(cfg, Step(cfg, t, e).table)
  {
    match e
    case Upgrade(id, address, onPath, now) =>
      RecordingKeepsCounted(cfg, t, address, now);
      if id !in t.half && id !in t.live {
        DecidingKeepsCounted(cfg, t.(records := Recorded(cfg, t.records, address, now)), id, address, now);
      }
    case Complete(id) =>
      if id in t.half {
        CompletingKeepsCounted(cfg, t, id);
      }
    case Abandon(id, now) => ReleasingKeepsCounted(cfg, t, id, now);
    case Closed(id, now) => ReleasingKeepsCounted(cfg, t, id, now);
    case Sweep(now) => PruningKeepsCounted(cfg, t, now, SWEEP_IDLE_MS);
    case Shutdown =>
      forall a ensures CountedAt(cfg, t.(shuttingDown := true), a) {
        assert CountedAt(cfg, t, a);
      }
  }

  /** Over any run, whatever is pruned and when: every count is exact, and no record with a connection is gone. */
  lemma {:induction false} CountsAreExact(cfg: Config, events: seq<Event>)
    ensures Counted(cfg, Run(cfg, events))
  {
    if events == [] {
      forall a ensures CountedAt(cfg, START, a) {
        assert Of(START.half, a) == {} && Of(START.live, a) == {};
      }
    } else {
      CountsAreExact(cfg, events[..|events| - 1]);
      StepKeepsCounted(cfg, Run(cfg, events[..|events| - 1]), events[|events| - 1]);
    }
  }

  // ---------------------------------------------------------------- pruning is unobservable

  /** A host that never prunes its table. */
  function StepKeeping(cfg: Config, t: Table, e: Event): Stepped {
    match e
    case Upgrade(id, address, onPath, now) =>
      if id in t.half || id in t.live then Stepped(t, Quiet)
      else if t.shuttingDown then Stepped(t, Unavailable)
      else if !onPath then Stepped(t, NotFound)
      else Decided(cfg, t.(records := KeptRecorded(cfg, t.records, address, now)), id, address, now)
    case Sweep(now) => Stepped(t, Quiet)
    case _ => Step(cfg, t, e)
  }

  function KeptRecorded(cfg: Config, records: map<string, Record>, address: string, now: int): (next: map<string, Record>)
    ensures address in next
  {
    records[address := if address in records then records[address].(lastSeen := now) else NewRecord(cfg, now)]
  }

  /** From `now` on the two buckets cannot be told apart. */
  ghost predicate BucketsAlike(cfg: Config, a: BucketState, b: BucketState, now: int) {
    forall at: int {:trigger Refilled(a, Rate(cfg), Burst(cfg), at)} ::
      at >= now ==> Refilled(a, Rate(cfg), Burst(cfg), at) == Refilled(b, Rate(cfg), Burst(cfg), at)
  }

  ghost predicate SoundRecord(cfg: Config, record: Record, now: int) {
    InRange(record.handshakes, Burst(cfg)) && record.handshakes.lastRefill <= record.lastSeen <= now
  }

  ghost predicate AlikeAt(cfg: Config, kept: Table, pruned: Table, address: string, now: int) {
    if address !in kept.records then address !in pruned.records
    else
      && SoundRecord(cfg, kept.records[address], now)
      && if address in pruned.records then
           var a, b := kept.records[address], pruned.records[address];
           a.connections == b.connections && a.lastSeen == b.lastSeen && BucketsAlike(cfg, a.handshakes, b.handshakes, now)
         else
           kept.records[address].connections <= 0
           && BucketsAlike(cfg, kept.records[address].handshakes, NewRecord(cfg, now).handshakes, now)
  }

  ghost predicate Alike(cfg: Config, kept: Table, pruned: Table, now: int) {
    && kept.half == pruned.half && kept.live == pruned.live && kept.shuttingDown == pruned.shuttingDown
    && forall address {:trigger AlikeAt(cfg, kept, pruned, address, now)} :: AlikeAt(cfg, kept, pruned, address, now)
  }

  lemma RateIsPositive(cfg: Config)
    ensures Rate(cfg) >= 0.0 && Burst(cfg) >= 0.0 && Accrued(60_000, Rate(cfg)) == Burst(cfg)
  {
  }

  /** A bucket left alone for a minute is as good as new. */
  lemma FullAfterAMinute(cfg: Config, b: BucketState, at: int)
    requires InRange(b, Burst(cfg)) && at - b.lastRefill >= 60_000
    ensures Refilled(b, Rate(cfg), Burst(cfg), at) == BucketState(Burst(cfg), at)
  {
    var elapsed := Forward(b.lastRefill, at);
    RateIsPositive(cfg);
    AccruedAdds(60_000, elapsed - 60_000, Rate(cfg));
    AccruedNonNegative(elapsed - 60_000, Rate(cfg));
  }

  lemma NewIsFull(cfg: Config, now: int, at: int)
    ensures Refilled(NewRecord(cfg, now).handshakes, Rate(cfg), Burst(cfg), at) == BucketState(Burst(cfg), at)
  {
    RateIsPositive(cfg);
    AccruedNonNegative(Forward(now, at), Rate(cfg));
  }

  lemma IdleIsLikeNew(cfg: Config, record: Record, now: int)
    requires SoundRecord(cfg, record, now) && now - record.lastSeen > SWEEP_IDLE_MS
    ensures BucketsAlike(cfg, record.handshakes, NewRecord(cfg, now).handshakes, now)
  {
    forall at: int {:trigger Refilled(record.handshakes, Rate(cfg), Burst(cfg), at)} | at >= now
      ensures Refilled(record.handshakes, Rate(cfg), Burst(cfg), at)
           == Refilled(NewRecord(cfg, now).handshakes, Rate(cfg), Burst(cfg), at)
    {
      FullAfterAMinute(cfg, record.handshakes, at);
      NewIsFull(cfg, now, at);
    }
  }

  lemma LikeNewStays(cfg: Config, b: BucketState, now: int, later: int)
    requires now <= later && BucketsAlike(cfg, b, NewRecord(cfg, now).handshakes, now)
    ensures BucketsAlike(cfg, b, NewRecord(cfg, later).handshakes, later)
  {
    forall at: int {:trigger Refilled(b, Rate(cfg), Burst(cfg), at)} | at >= later
      ensures Refilled(b, Rate(cfg), Burst(cfg), at) == Refilled(NewRecord(cfg, later).handshakes, Rate(cfg), Burst(cfg), at)
    {
      NewIsFull(cfg, now, at);
      NewIsFull(cfg, later, at);
    }
  }

  lemma AlikeLater(cfg: Config, kept: Table, pruned: Table, now: int, later: int)
    requires Alike(cfg, kept, pruned, now) && now <= later
    ensures Alike(cfg, kept, pruned, later)
  {
    forall a ensures AlikeAt(cfg, kept, pruned, a, later) {
      assert AlikeAt(cfg, kept, pruned, a, now);
      if a in kept.records && a !in pruned.records {
        LikeNewStays(cfg, kept.records[a].handshakes, now, later);
      }
    }
  }

  /** Buckets that cannot be told apart take the same charge, and still cannot be told apart. */
  lemma ChargedAlike(cfg: Config, a: Record, b: Record, now: int)
    requires BucketsAlike(cfg, a.handshakes, b.handshakes, now)
    ensures Handshake(cfg, a, now) == Handshake(cfg, b, now)
  {
    assert Refilled(a.handshakes, Rate(cfg), Burst(cfg), now) == Refilled(b.handshakes, Rate(cfg), Burst(cfg), now);
  }

  lemma ChargedIsSound(cfg: Config, record: Record, now: int)
    requires SoundRecord(cfg, record, now) && record.lastSeen == now
    ensures SoundRecord(cfg, record.(handshakes := Handshake(cfg, record, now).state), now)
  {
    RateIsPositive(cfg);
    AccruedNonNegative(Forward(record.handshakes.lastRefill, now), Rate(cfg));
  }

  lemma SweepStaysAlike(cfg: Config, kept: Table, pruned: Table, now: int)
    requires Alike(cfg, kept, pruned, now)
    ensures Alike(cfg, kept, pruned.(records := Pruned(pruned.records, now, SWEEP_IDLE_MS)), now)
  {
    var next := pruned.(records := Pruned(pruned.records, now, SWEEP_IDLE_MS));
    forall a ensures AlikeAt(cfg, kept, next, a, now) {
      assert AlikeAt(cfg, kept, pruned, a, now);
      if a in pruned.records && a !in next.records {
        IdleIsLikeNew(cfg, kept.records[a], now);
      }
    }
  }

  lemma RecordedAlike(cfg: Config, kept: Table, pruned: Table, address: string, now: int)
    requires Alike(cfg, kept, pruned, now) && Counted(cfg, kept) && (address in pruned.records || |pruned.records| < AddressLimit(cfg))
    ensures var k := kept.(records := KeptRecorded(cfg, kept.records, address, now));
            var p := pruned.(records := Recorded(cfg, pruned.records, address, now));
            Alike(cfg, k, p, now) && k.records[address].lastSeen == now
  {
    var k := kept.(records := KeptRecorded(cfg, kept.records, address, now));
    var p := pruned.(records := Recorded(cfg, pruned.records, address, now));
    RateIsPositive(cfg);
    forall a ensures AlikeAt(cfg, k, p, a, now) {
      assert AlikeAt(cfg, kept, pruned, a, now);
      assert CountedAt(cfg, kept, a);
    }
  }

  lemma DecidedAlike(cfg: Config, kept: Table, pruned: Table, id: Id, address: string, now: int)
    requires Alike(cfg, kept, pruned, now) && address in kept.records && address in pruned.records && kept.records[address].lastSeen == now
    ensures Decided(cfg, kept, id, address, now).outcome == Decided(cfg, pruned, id, address, now).outcome
    ensures Alike(cfg, Decided(cfg, kept, id, address, now).table, Decided(cfg, pruned, id, address, now).table, now)
  {
    var k, p := Decided(cfg, kept, id, address, now).table, Decided(cfg, pruned, id, address, now).table;
    assert AlikeAt(cfg, kept, pruned, address, now);
    ChargedAlike(cfg, kept.records[address], pruned.records[address], now);
    ChargedIsSound(cfg, kept.records[address], now);
    forall a ensures AlikeAt(cfg, k, p, a, now) {
      assert AlikeAt(cfg, kept, pruned, a, now);
    }
  }

  lemma ReleasedAlike(cfg: Config, kept: Table, pruned: Table, address: string, now: int)
    requires Alike(cfg, kept, pruned, now) && (address in kept.records ==> address in pruned.records)
    ensures Alike(cfg, kept.(records := Released(kept.records, address, now)), pruned.(records := Released(pruned.records, address, now)), now)
  {
    var k := kept.(records := Released(kept.records, address, now));
    var p := pruned.(records := Released(pruned.records, address, now));
    forall a ensures AlikeAt(cfg, k, p, a, now) {
      assert AlikeAt(cfg, kept, pruned, a, now);
    }
  }

  lemma HeldIsThere(cfg: Config, t: Table, id: Id)
    requires Counted(cfg, t)
    ensures id in t.half ==> t.half[id] in t.records
    ensures id in t.live ==> t.live[id] in t.records
  {
    if id in t.half {
      assert CountedAt(cfg, t, t.half[id]) && id in Of(t.half, t.half[id]);
    }
    if id in t.live {
      assert CountedAt(cfg, t, t.live[id]) && id in Of(t.live, t.live[id]);
    }
  }

  function TimeOf(e: Event, last: int): int {
    match e
    case Upgrade(_, _, _, now) => now
    case Abandon(_, now) => now
    case Closed(_, now) => now
    case Sweep(now) => now
    case _ => last
  }

  /** The address is on record, or there is room for it without pruning. */
  predicate HasRoom(cfg: Config, t: Table, e: Event) {
    e.Upgrade? ==> e.address in t.records || |t.records| < AddressLimit(cfg)
  }

  lemma IdsAlike(cfg: Config, kept: Table, pruned: Table, half: map<Id, string>, live: map<Id, string>, down: bool, now: int)
    requires Alike(cfg, kept, pruned, now)
    ensures Alike(cfg, Table(kept.records, half, live, down), Table(pruned.records, half, live, down), now)
  {
    forall a ensures AlikeAt(cfg, Table(kept.records, half, live, down), Table(pruned.records, half, live, down), a, now) {
      assert AlikeAt(cfg, kept, pruned, a, now);
    }
  }

  /** One event, with and without pruning: the same answer, and tables that still cannot be told apart. */
  lemma StepAlike(cfg: Config, kept: Table, pruned: Table, e: Event, now: int)
    requires Alike(cfg, kept, pruned, now) && Counted(cfg, kept) && Counted(cfg, pruned)
    requires now <= TimeOf(e, now) && HasRoom(cfg, pruned, e)
    ensures StepKeeping(cfg, kept, e).outcome == Step(cfg, pruned, e).outcome
    ensures Alike(cfg, StepKeeping(cfg, kept, e).table, Step(cfg, pruned, e).table, TimeOf(e, now))
  {
    var at := TimeOf(e, now);
    AlikeLater(cfg, kept, pruned, now, at);
    match e
    case Upgrade(id, address, onPath, _) =>
      RecordedAlike(cfg, kept, pruned, address, at);
      DecidedAlike(cfg, kept.(records := KeptRecorded(cfg, kept.records, address, at)),
                   pruned.(records := Recorded(cfg, pruned.records, address, at)), id, address, at);
    case Complete(id) =>
      if id in kept.half {
        IdsAlike(cfg, kept, pruned, kept.half - {id}, kept.live[id := kept.half[id]], kept.shuttingDown, at);
      }
    case Abandon(id, _) =>
      if id in kept.half {
        HeldIsThere(cfg, pruned, id);
        ReleasedAlike(cfg, kept, pruned, kept.half[id], at);
        IdsAlike(cfg, kept.(records := Released(kept.records, kept.half[id], at)),
                 pruned.(records := Released(pruned.records, kept.half[id], at)), kept.half - {id}, kept.live, kept.shuttingDown, at);
      }
    case Closed(id, _) =>
      if id in kept.live {
        HeldIsThere(cfg, pruned, id);
        ReleasedAlike(cfg, kept, pruned, kept.live[id], at);
        IdsAlike(cfg, kept.(records := Released(kept.records, kept.live[id], at)),
                 pruned.(records := Released(pruned.records, kept.live[id], at)), kept.half, kept.live - {id}, kept.shuttingDown, at);
      }
    case Sweep(_) => SweepStaysAlike(cfg, kept, pruned, at);
    case Shutdown => IdsAlike(cfg, kept, pruned, kept.half, kept.live, true, at);
  }

  lemma KeepingKeepsCounted(cfg: Config, t: Table, e: Event)
    requires Counted(cfg, t)
    ensures Counted(cfg, StepKeeping(cfg, t, e).table)
  {
    StepKeepsCounted(cfg, t, e);
    if e.Upgrade? && e.id !in t.half && e.id !in t.live {
      var recorded := t.(records := KeptRecorded(cfg, t.records, e.address, e.now));
      forall a ensures CountedAt(cfg, recorded, a) {
        assert CountedAt(cfg, t, a);
      }
      DecidingKeepsCounted(cfg, recorded, e.id, e.address, e.now);
    }
  }

  function RunKeeping(cfg: Config, events: seq<Event>): Table {
    if events == [] then START else StepKeeping(cfg, RunKeeping(cfg, events[..|events| - 1]), events[|events| - 1]).table
  }

  function Outcomes(cfg: Config, events: seq<Event>): seq<Outcome> {
    if events == [] then []
    else
      var before := events[..|events| - 1];
      Outcomes(cfg, before) + [Step(cfg, Run(cfg, before), events[|events| - 1]).outcome]
  }

  function OutcomesKeeping(cfg: Config, events: seq<Event>): seq<Outcome> {
    if events == [] then []
    else
      var before := events[..|events| - 1];
      OutcomesKeeping(cfg, before) + [StepKeeping(cfg, RunKeeping(cfg, before), events[|events| - 1]).outcome]
  }

  function LastTime(events: seq<Event>, start: int): int {
    if events == [] then start else TimeOf(events[|events| - 1], LastTime(events[..|events| - 1], start))
  }

  /** The clock never steps back, and the table never has to be pruned to make room. */
  ghost predicate Ordinary(cfg: Config, events: seq<Event>, start: int) {
    events == [] ||
    var before, last := events[..|events| - 1], events[|events| - 1];
    && Ordinary(cfg, before, start)
    && LastTime(before, start) <= TimeOf(last, LastTime(before, start))
    && HasRoom(cfg, Run(cfg, before), last)
  }

  /**
   * The sweep's pruning is unobservable: every upgrade of an ordinary run is answered as it would have been by a
   * host that forgets nothing.
   */
  lemma {:induction false} PruningIsUnobservable(cfg: Config, events: seq<Event>, start: int)
    requires Ordinary(cfg, events, start)
    ensures Outcomes(cfg, events) == OutcomesKeeping(cfg, events)
    ensures Counted(cfg, RunKeeping(cfg, events)) && Alike(cfg, RunKeeping(cfg, events), Run(cfg, events), LastTime(events, start))
  {
    CountsAreExact(cfg, []);
    if events != [] {
      var before, last := events[..|events| - 1], events[|events| - 1];
      PruningIsUnobservable(cfg, before, start);
      CountsAreExact(cfg, before);
      StepAlike(cfg, RunKeeping(cfg, before), Run(cfg, before), last, LastTime(before, start));
      KeepingKeepsCounted(cfg, RunKeeping(cfg, before), last);
    }
  }

  // ---------------------------------------------------------------- the host

  /** One address as the host keeps it; an upgrade under way holds on to its record. */
  class AddressRecord {
    ghost const address: string
    var connections: int
    var handshakes: BucketState
    var lastSeen: int

    constructor (address: string, handshakes: BucketState, now: int)
      ensures this.address == address && Value() == Record(0, handshakes, now)
    {
      this.address := address;
      connections, this.handshakes, lastSeen := 0, handshakes, now;
    }

    function Value(): Record
      reads this
    {
      Record(connections, handshakes, lastSeen)
    }
  }

  lemma WrittenTwice(records: map<string, Record>, address: string, first: Record, second: Record)
    ensures records[address := first][address := second] == records[address := second]
  {
  }

  class Gate {
    const config: Config
    var addresses: map<string, AddressRecord>
    /** Upgrades admitted and not completed, each with the record it was counted on. */
    var upgrades: map<Id, AddressRecord>
    var connections: map<Id, string>
    var shuttingDown: bool

    ghost function State(): Table
      reads this, addresses.Values, upgrades.Values
    {
      Table(map a | a in addresses :: addresses[a].Value(), map i | i in upgrades :: upgrades[i].address, connections, shuttingDown)
    }

    /** Every record an upgrade holds is the one the table has for its address. */
    ghost predicate Valid()
      reads this, addresses.Values, upgrades.Values
    {
      && (forall a :: a in addresses ==> addresses[a].address == a)
      && (forall i :: i in upgrades ==> upgrades[i].address in addresses && addresses[upgrades[i].address] == upgrades[i])
      && Counted(config, State())
    }

    constructor (config: Config)
      ensures Valid() && this.config == config && State() == START && addresses == map[] && upgrades == map[]
    {
      this.config := config;
      addresses, upgrades, connections, shuttingDown := map[], map[], map[], false;
      new;
      CountsAreExact(config, []);
      assert State() == START;
    }

    method DropIdle(now: int, idleForMs: int)
      modifies this`addresses
      ensures addresses == map a | a in old(addresses) && !Prunable(old(addresses)[a].Value(), now, idleForMs) :: old(addresses)[a]
    {
      var rest := addresses.Keys;
      while rest != {}
        invariant rest <= old(addresses).Keys
        invariant addresses == map a | a in old(addresses) && (a in rest || !Prunable(old(addresses)[a].Value(), now, idleForMs)) :: old(addresses)[a]
        decreases |rest|
      {
        var a :| a in rest;
        rest := rest - {a};
        if Prunable(addresses[a].Value(), now, idleForMs) {
          addresses := addresses - {a};
        }
      }
    }

    /** Drops the records idle for longer, none of which an upgrade holds. */
    method Prune(now: int, idleForMs: int)
      requires Valid()
      modifies this`addresses
      ensures Valid() && State() == old(State()).(records := Pruned(old(State()).records, now, idleForMs))
      ensures addresses.Values <= old(addresses).Values
    {
      ghost var was := State();
      ghost var next := was.(records := Pruned(was.records, now, idleForMs));
      DropIdle(now, idleForMs);
      assert State().records == next.records;
      assert State() == next;
      PruningKeepsCounted(config, was, now, idleForMs);
      forall i | i in upgrades
        ensures upgrades[i].address in addresses
      {
        HeldIsThere(config, next, i);
      }
    }

    /** Writes to one record of the table, found by its address, change the state there and nowhere else. */
    twostate lemma OneWritten(address: string)
      requires old(Valid()) && address in addresses && unchanged(this)
      requires forall a :: a in addresses && a != address ==> unchanged(addresses[a])
      ensures State() == old(State()).(records := old(State()).records[address := addresses[address].Value()])
    {
      assert State().records == old(State()).records[address := addresses[address].Value()];
      assert State().half == old(State()).half;
    }

    method Touch(address: string, now: int) returns (record: AddressRecord)
      requires Valid() && address in addresses
      modifies addresses[address]
      ensures Valid() && addresses[address] == record
      ensures State() == old(State()).(records := Recorded(config, old(State()).records, address, now))
    {
      record := addresses[address];
      record.lastSeen := now;
      OneWritten(address);
      RecordingKeepsCounted(config, old(State()), address, now);
    }

    method Enter(address: string, now: int) returns (record: AddressRecord)
      requires Valid() && address !in addresses
      modifies this`addresses
      ensures Valid() && fresh(record) && addresses == old(addresses)[address := record]
      ensures State() == old(State()).(records := old(State()).records[address := NewRecord(config, now)])
    {
      ghost var was := State();
      record := new AddressRecord(address, BucketState(Burst(config), now), now);
      addresses := addresses[address := record];
      assert State().records == was.records[address := NewRecord(config, now)];
      assert State().half == was.half;
      forall a ensures CountedAt(config, State(), a) {
        assert CountedAt(config, was, a);
      }
    }

    /** Room in a full table is made by dropping whoever has no connection. */
    method MakeRoom(now: int)
      requires Valid()
      modifies this`addresses
      ensures Valid() && addresses.Values <= old(addresses).Values && addresses.Keys <= old(addresses).Keys
      ensures State() == old(State()).(records :=
                if |old(State()).records| >= AddressLimit(config) then Pruned(old(State()).records, now, 0) else old(State()).records)
    {
      ghost var was := State();
      assert was.records.Keys == addresses.Keys;
      assert |was.records| == |addresses|;
      if |addresses| >= AddressLimit(config) {
        Prune(now, 0);
        assert State().records.Keys == addresses.Keys;
      }
    }

    method RecordFor(address: string, now: int) returns (record: AddressRecord)
      requires Valid()
      modifies this`addresses, addresses.Values
      ensures Valid() && address in addresses && addresses[address] == record
      ensures State() == old(State()).(records := Recorded(config, old(State()).records, address, now))
      ensures forall r :: r in addresses.Values ==> r in old(addresses).Values || fresh(r)
    {
      assert State().records.Keys == addresses.Keys;
      if address in addresses {
        record := Touch(address, now);
      } else {
        MakeRoom(now);
        record := Enter(address, now);
      }
    }

    method Charge(record: AddressRecord, now: int) returns (ok: bool)
      requires Valid() && record.address in addresses && addresses[record.address] == record
      modifies record
      ensures var taken := Handshake(config, old(record.Value()), now);
              && ok == taken.ok
              && record.Value() == old(record.Value()).(handshakes := taken.state)
              && State() == old(State()).(records := old(State()).records[record.address := record.Value()])
    {
      var taken := Charged(record.handshakes, Rate(config), Burst(config), 1.0, now);
      record.handshakes := taken.state;
      ok := taken.ok;
      OneWritten(record.address);
    }

    method CountIn(id: Id, record: AddressRecord)
      requires (forall a :: a in addresses ==> addresses[a].address == a) && id !in upgrades
      requires record.address in addresses && addresses[record.address] == record
      modifies this`upgrades, record
      ensures upgrades == old(upgrades)[id := record] && record.Value() == old(record.Value()).(connections := old(record.connections) + 1)
      ensures State() == old(State()).(records := old(State()).records[record.address := record.Value()],
                                       half := old(State()).half[id := record.address])
    {
      ghost var was := State();
      record.connections := record.connections + 1;
      upgrades := upgrades[id := record];
      assert State().half == was.half[id := record.address];
      assert State().records == was.records[record.address := record.Value()];
    }

    method Spend(id: Id, record: AddressRecord, now: int) returns (outcome: Outcome)
      requires Valid() && id !in upgrades
      requires record.address in addresses && addresses[record.address] == record
      modifies this`upgrades, record
      ensures Stepped(State(), outcome) == Spent(config, old(State()), id, record.address, now)
      ensures upgrades == if outcome.Admitted? then old(upgrades)[id := record] else old(upgrades)
    {
      ghost var was := State();
      var ok := Charge(record, now);
      ghost var charged := record.Value();
      if !ok {
        return TooFast;
      }
      CountIn(id, record);
      WrittenTwice(was.records, record.address, charged, record.Value());
      return Admitted;
    }

    /** Whether an upgrade may go on; if so it is counted at once on its address's record. */
    method Decide(id: Id, record: AddressRecord, now: int) returns (outcome: Outcome)
      requires Valid() && id !in upgrades && id !in connections
      requires record.address in addresses && addresses[record.address] == record
      modifies this`upgrades, record
      ensures Valid() && Stepped(State(), outcome) == Decided(config, old(State()), id, record.address, now)
    {
      ghost var was := State();
      if |connections| >= config.maxConnections {
        return ServerFull;
      }
      if record.connections >= config.maxPerAddress {
        return AddressFull;
      }
      outcome := Spend(id, record, now);
      DecidingKeepsCounted(config, was, id, record.address, now);
    }

    method OnUpgrade(id: Id, address: string, onPath: bool, now: int) returns (outcome: Outcome)
      requires Valid() && id !in upgrades && id !in connections
      modifies this, addresses.Values
      ensures Valid() && Stepped(State(), outcome) == Step(config, old(State()), Upgrade(id, address, onPath, now))
    {
      if shuttingDown {
        return Unavailable;
      }
      if !onPath {
        return NotFound;
      }
      var record := RecordFor(address, now);
      outcome := Decide(id, record, now);
    }

    /** The upgrade went through: from here its connection answers for the count. */
    method OnComplete(id: Id, address: string)
      requires Valid() && id in upgrades && upgrades[id].address == address
      modifies this
      ensures Valid() && State() == Step(config, old(State()), Complete(id)).table
    {
      ghost var was := State();
      CompletingKeepsCounted(config, was, id);
      connections := connections[id := address];
      upgrades := upgrades - {id};
      assert State().half == was.half - {id};
      assert State() == was.(half := was.half - {id}, live := was.live[id := address]);
    }

    /** One connection fewer on a record of the table. */
    method CountOut(record: AddressRecord, now: int)
      requires Valid() && record.address in addresses && addresses[record.address] == record
      modifies record
      ensures State() == old(State()).(records := Released(old(State()).records, record.address, now))
    {
      record.connections := record.connections - 1;
      record.lastSeen := now;
      OneWritten(record.address);
    }

    /** The socket closed before its upgrade went through. */
    method OnAbandon(id: Id, now: int)
      requires Valid() && id in upgrades
      modifies this`upgrades, addresses.Values
      ensures Valid() && State() == Step(config, old(State()), Abandon(id, now)).table
    {
      ghost var was := State();
      ReleasingKeepsCounted(config, was, id, now);
      CountOut(upgrades[id], now);
      upgrades := upgrades - {id};
      assert State().half == was.half - {id};
      assert State() == was.(half := was.half - {id}, records := Released(was.records, was.half[id], now));
    }

    method OnClosed(id: Id, now: int)
      requires Valid()
      modifies this`connections, addresses.Values
      ensures Valid() && State() == Step(config, old(State()), Closed(id, now)).table
    {
      if id !in connections {
        return;
      }
      ghost var was := State();
      ReleasingKeepsCounted(config, was, id, now);
      HeldIsThere(config, was, id);
      var address := connections[id];
      if address in addresses {
        CountOut(addresses[address], now);
      }
      connections := connections - {id};
      assert State() == was.(live := was.live - {id}, records := Released(was.records, address, now));
    }

    method OnSweep(now: int)
      requires Valid()
      modifies this`addresses
      ensures Valid() && State() == Step(config, old(State()), Sweep(now)).table
    {
      Prune(now, SWEEP_IDLE_MS);
    }
  }
}
