/**
 * How every upgrade is answered (relay/src/node/server.ts), from nothing but what came before it: who was let in and has
 * not left, and when its address was last let in or turned away as too fast. The records and their pruning do not show.
 */
module AdmissionAnswers {
  import opened Admission
  import opened RateLimit
  import opened Wrappers

  // ---------------------------------------------------------------- what came before

  function UnderWayNext(before: map<Id, string>, e: Event, out: Outcome): map<Id, string> {
    match e
    case Upgrade(id, address, _, _) => if out.Admitted? then before[id := address] else before
    case Complete(id) => before - {id}
    case Abandon(id, _) => before - {id}
    case _ => before
  }

  function ConnectedNext(before: map<Id, string>, under: map<Id, string>, e: Event): map<Id, string> {
    match e
    case Complete(id) => if id in under then before[id := under[id]] else before
    case Closed(id, _) => before - {id}
    case _ => before
  }

  /** The upgrades let in that have neither completed nor been given up. */
  function UnderWay(events: seq<Event>, outs: seq<Outcome>): map<Id, string>
    requires |outs| == |events|
  {
    if events == [] then map[]
    else
      var n := |events| - 1;
      UnderWayNext(UnderWay(events[..n], outs[..n]), events[n], outs[n])
  }

  /** The connections that have completed and not closed. */
  function Connected(events: seq<Event>, outs: seq<Outcome>): map<Id, string>
    requires |outs| == |events|
  {
    if events == [] then map[]
    else
      var n := |events| - 1;
      ConnectedNext(Connected(events[..n], outs[..n]), UnderWay(events[..n], outs[..n]), events[n])
  }

  /** What an address has asked of its handshake budget: every upgrade of its own that got as far as being counted. */
  function Tries(events: seq<Event>, outs: seq<Outcome>, address: string): seq<Charge>
    requires |outs| == |events|
  {
    if events == [] then []
    else
      var n := |events| - 1;
      var e := events[n];
      Tries(events[..n], outs[..n], address) +
      (if e.Upgrade? && e.address == address && (outs[n].Admitted? || outs[n].TooFast?) then [Charge(1.0, e.now)] else [])
  }

  function OfAddress(ids: map<Id, string>, address: string): set<Id> {
    set i | i in ids && ids[i] == address
  }

  /** A budget nobody has drawn on yet. */
  function Untouched(cfg: Config): BucketState {
    BucketState(cfg.maxPerMinute as real, 0)
  }

  /** The budget lets one more handshake through at `now`. */
  predicate LetsThrough(cfg: Config, tries: seq<Charge>, now: int) {
    var all := tries + [Charge(1.0, now)];
    Answers(Untouched(cfg), cfg.maxPerMinute as real / 60.0, cfg.maxPerMinute as real, all)[|tries|]
  }

  lemma {:induction false} OutcomesAreAll(cfg: Config, events: seq<Event>)
    ensures |Outcomes(cfg, events)| == |events|
  {
    if events != [] {
      OutcomesAreAll(cfg, events[..|events| - 1]);
    }
  }

  lemma UpgradeInLedger(cfg: Config, t: Table, id: Id, address: string, onPath: bool, now: int)
    ensures var next := Upgraded(cfg, t, id, address, onPath, now);
            && next.table.half == (if next.outcome.Admitted? then t.half[id := address] else t.half)
            && next.table.live == t.live && next.table.shuttingDown == t.shuttingDown
  {
  }

  lemma NothingTaken(ids: map<Id, string>, id: Id)
    ensures id !in ids ==> ids - {id} == ids
  {
  }

  lemma LedgerStep(cfg: Config, t: Table, e: Event)
    ensures var next := Step(cfg, t, e);
            && next.table.half == UnderWayNext(t.half, e, next.outcome) && next.table.live == ConnectedNext(t.live, t.half, e)
            && next.table.shuttingDown == (t.shuttingDown || e.Shutdown?)
  {
    match e
    case Upgrade(id, address, onPath, now) => UpgradeInLedger(cfg, t, id, address, onPath, now);
    case Complete(id) => NothingTaken(t.half, id);
    case Abandon(id, _) => NothingTaken(t.half, id);
    case Closed(id, _) => NothingTaken(t.live, id);
    case _ =>
  }

  ghost predicate LedgerOf(t: Table, events: seq<Event>, outs: seq<Outcome>)
    requires |outs| == |events|
  {
    && t.half == UnderWay(events, outs) && t.live == Connected(events, outs)
    && (t.shuttingDown <==> Shutdown in events)
  }

  lemma LedgerGrows(t: Table, next: Stepped, front: seq<Event>, outs: seq<Outcome>, e: Event)
    requires |outs| == |front| && LedgerOf(t, front, outs)
    requires next.table.half == UnderWayNext(t.half, e, next.outcome) && next.table.live == ConnectedNext(t.live, t.half, e)
    requires next.table.shuttingDown == (t.shuttingDown || e.Shutdown?)
    ensures LedgerOf(next.table, front + [e], outs + [next.outcome])
  {
    assert (front + [e])[..|front|] == front && (outs + [next.outcome])[..|outs|] == outs;
  }

  lemma {:induction false} LedgerIsExact(cfg: Config, events: seq<Event>)
    ensures |Outcomes(cfg, events)| == |events| && LedgerOf(Run(cfg, events), events, Outcomes(cfg, events))
  {
    if events != [] {
      var front, e := events[..|events| - 1], events[|events| - 1];
      LedgerIsExact(cfg, front);
      LedgerStep(cfg, Run(cfg, front), e);
      LedgerGrows(Run(cfg, front), Step(cfg, Run(cfg, front), e), front, Outcomes(cfg, front), e);
      assert events == front + [e];
    }
  }

  // ---------------------------------------------------------------- the budget

  /** From the outside two buckets of this host are one. */
  ghost predicate SameBudget(cfg: Config, a: BucketState, b: BucketState) {
    forall at: int {:trigger Refilled(a, Rate(cfg), Burst(cfg), at)} ::
      Refilled(a, Rate(cfg), Burst(cfg), at) == Refilled(b, Rate(cfg), Burst(cfg), at)
  }

  lemma FullIsFull(cfg: Config, since: int)
    ensures SameBudget(cfg, BucketState(Burst(cfg), since), Untouched(cfg))
  {
    RateIsPositive(cfg);
    forall at: int
      ensures Refilled(BucketState(Burst(cfg), since), Rate(cfg), Burst(cfg), at) == BucketState(Burst(cfg), at)
      ensures Refilled(Untouched(cfg), Rate(cfg), Burst(cfg), at) == BucketState(Burst(cfg), at)
    {
      AccruedNonNegative(Forward(since, at), Rate(cfg));
      AccruedNonNegative(Forward(0, at), Rate(cfg));
    }
  }

  ghost predicate BudgetAt(cfg: Config, t: Table, tries: seq<Charge>, address: string) {
    if address in t.records then SameBudget(cfg, t.records[address].handshakes, After(Untouched(cfg), Rate(cfg), Burst(cfg), tries))
    else tries == []
  }

  lemma OneMoreTry(cfg: Config, tries: seq<Charge>, now: int)
    ensures After(Untouched(cfg), Rate(cfg), Burst(cfg), tries + [Charge(1.0, now)])
         == Charged(After(Untouched(cfg), Rate(cfg), Burst(cfg), tries), Rate(cfg), Burst(cfg), 1.0, now).state
    ensures LetsThrough(cfg, tries, now) <==> Charged(After(Untouched(cfg), Rate(cfg), Burst(cfg), tries), Rate(cfg), Burst(cfg), 1.0, now).ok
  {
    var all := tries + [Charge(1.0, now)];
    assert all[..|all| - 1] == tries;
  }

  lemma SameChargeSameBudget(cfg: Config, a: BucketState, b: BucketState, now: int)
    requires SameBudget(cfg, a, b)
    ensures Charged(a, Rate(cfg), Burst(cfg), 1.0, now) == Charged(b, Rate(cfg), Burst(cfg), 1.0, now)
  {
    assert Refilled(a, Rate(cfg), Burst(cfg), now) == Refilled(b, Rate(cfg), Burst(cfg), now);
  }

  /** The bucket of an address once it is on record, in a host that forgets nothing. */
  lemma KeptBudget(cfg: Config, t: Table, tries: seq<Charge>, address: string, now: int)
    requires BudgetAt(cfg, t, tries, address)
    ensures SameBudget(cfg, KeptRecorded(cfg, t.records, address, now)[address].handshakes, After(Untouched(cfg), Rate(cfg), Burst(cfg), tries))
  {
    if address !in t.records {
      FullIsFull(cfg, now);
    }
  }

  /** An upgrade counted against its address, and the budget it leaves. */
  lemma CountedUpgrade(cfg: Config, t: Table, tries: seq<Charge>, id: Id, address: string, now: int)
    requires BudgetAt(cfg, t, tries, address)
    ensures var recorded := t.(records := KeptRecorded(cfg, t.records, address, now));
            var spent := Admission.Spent(cfg, recorded, id, address, now);
            && (spent.outcome.Admitted? <==> LetsThrough(cfg, tries, now)) && (spent.outcome.TooFast? <==> !LetsThrough(cfg, tries, now))
            && BudgetAt(cfg, spent.table, tries + [Charge(1.0, now)], address)
  {
    KeptBudget(cfg, t, tries, address, now);
    OneMoreTry(cfg, tries, now);
    SameChargeSameBudget(cfg, KeptRecorded(cfg, t.records, address, now)[address].handshakes,
                         After(Untouched(cfg), Rate(cfg), Burst(cfg), tries), now);
  }

  function TriesAfter(tries: seq<Charge>, e: Event, out: Outcome, address: string): seq<Charge> {
    tries + (if e.Upgrade? && e.address == address && (out.Admitted? || out.TooFast?) then [Charge(1.0, e.now)] else [])
  }

  ghost predicate SameBucket(t: Table, next: Table, address: string) {
    && (address in next.records <==> address in t.records)
    && (address in t.records ==> next.records[address].handshakes == t.records[address].handshakes)
  }

  lemma OthersKeepBudget(cfg: Config, t: Table, e: Event, address: string)
    requires !(e.Upgrade? && e.address == address)
    ensures SameBucket(t, StepKeeping(cfg, t, e).table, address)
  {
    match e
    case Upgrade(id, other, _, now) =>
      DecidedElsewhere(cfg, t.(records := KeptRecorded(cfg, t.records, other, now)), id, other, now, address);
    case Abandon(id, now) =>
      if id in t.half {
        ReleasedKeepsBucket(t.records, t.half[id], now, address);
      }
    case Closed(id, now) =>
      if id in t.live {
        ReleasedKeepsBucket(t.records, t.live[id], now, address);
      }
    case _ =>
  }

  lemma DecidedElsewhere(cfg: Config, t: Table, id: Id, other: string, now: int, address: string)
    requires other in t.records && other != address
    ensures SameBucket(t, Decided(cfg, t, id, other, now).table, address)
  {
  }

  lemma ReleasedKeepsBucket(records: map<string, Record>, other: string, now: int, address: string)
    ensures var next := Released(records, other, now);
            && (address in next <==> address in records)
            && (address in records ==> next[address].handshakes == records[address].handshakes)
  {
  }

  lemma NoTryNoChange(cfg: Config, t: Table, e: Event, tries: seq<Charge>, address: string, next: Stepped)
    requires BudgetAt(cfg, t, tries, address) && SameBucket(t, next.table, address) && !(e.Upgrade? && e.address == address)
    ensures BudgetAt(cfg, next.table, TriesAfter(tries, e, next.outcome, address), address)
  {
    assert tries + [] == tries;
  }

  lemma OwnUpgradeKeepsBudget(cfg: Config, t: Table, e: Event, tries: seq<Charge>)
    requires e.Upgrade? && BudgetAt(cfg, t, tries, e.address)
    ensures BudgetAt(cfg, StepKeeping(cfg, t, e).table, TriesAfter(tries, e, StepKeeping(cfg, t, e).outcome, e.address), e.address)
  {
    assert tries + [] == tries;
    KeptBudget(cfg, t, tries, e.address, e.now);
    CountedUpgrade(cfg, t, tries, e.id, e.address, e.now);
  }

  lemma StepKeepsBudget(cfg: Config, t: Table, e: Event, tries: seq<Charge>, address: string)
    requires BudgetAt(cfg, t, tries, address)
    ensures BudgetAt(cfg, StepKeeping(cfg, t, e).table, TriesAfter(tries, e, StepKeeping(cfg, t, e).outcome, address), address)
  {
    if e.Upgrade? && e.address == address {
      OwnUpgradeKeepsBudget(cfg, t, e, tries);
    } else {
      OthersKeepBudget(cfg, t, e, address);
      NoTryNoChange(cfg, t, e, tries, address, StepKeeping(cfg, t, e));
    }
  }

  lemma {:induction false} BudgetsAreTries(cfg: Config, events: seq<Event>, address: string)
    ensures |OutcomesKeeping(cfg, events)| == |events|
    ensures BudgetAt(cfg, RunKeeping(cfg, events), Tries(events, OutcomesKeeping(cfg, events), address), address)
  {
    if events != [] {
      var front, outs := events[..|events| - 1], OutcomesKeeping(cfg, events);
      BudgetsAreTries(cfg, front, address);
      assert outs[..|events| - 1] == OutcomesKeeping(cfg, front);
      StepKeepsBudget(cfg, RunKeeping(cfg, front), events[|events| - 1], Tries(front, OutcomesKeeping(cfg, front), address), address);
    }
  }

  // ---------------------------------------------------------------- the answer

  /** What an upgrade is told, in the order the reasons are looked at. */
  function Answer(cfg: Config, down: bool, onPath: bool, connected: nat, ofAddress: nat, letThrough: bool): Outcome {
    if down then Unavailable
    else if !onPath then NotFound
    else if connected >= cfg.maxConnections then ServerFull
    else if ofAddress >= cfg.maxPerAddress then AddressFull
    else if letThrough then Admitted
    else TooFast
  }

  function OutcomeOf(cfg: Config, events: seq<Event>, e: Event): Outcome {
    Step(cfg, Run(cfg, events), e).outcome
  }

  function Share(under: map<Id, string>, open: map<Id, string>, address: string): nat {
    |OfAddress(under, address)| + |OfAddress(open, address)|
  }

  lemma ShareIsHeld(cfg: Config, t: Table, address: string, now: int)
    requires Counted(cfg, t)
    ensures Recorded(cfg, t.records, address, now)[address].connections == Share(t.half, t.live, address)
  {
    assert CountedAt(cfg, t, address);
    assert Of(t.half, address) == OfAddress(t.half, address) && Of(t.live, address) == OfAddress(t.live, address);
  }

  /** Past both caps, an address is told it is let in or too fast. */
  lemma SpendingAnswers(cfg: Config, t: Table, id: Id, address: string, now: int)
    requires address in t.records
    ensures var out := Admission.Spent(cfg, t, id, address, now).outcome; out == if out.Admitted? then Admitted else TooFast
  {
  }

  lemma TableAnswers(cfg: Config, t: Table, id: Id, address: string, onPath: bool, now: int)
    requires Counted(cfg, t) && id !in t.half && id !in t.live
    ensures var out := Step(cfg, t, Upgrade(id, address, onPath, now)).outcome;
            out == Answer(cfg, t.shuttingDown, onPath, |t.live|, Share(t.half, t.live, address), out.Admitted?)
  {
    ShareIsHeld(cfg, t, address, now);
    SpendingAnswers(cfg, t.(records := Recorded(cfg, t.records, address, now)), id, address, now);
  }

  /**
   * Over any run whatever, an upgrade is let in or counted as too fast only while the host is up, on its path, with fewer
   * than its cap connected and fewer than its share at the address connected or under way; and otherwise it is told which.
   */
  lemma UpgradeIsAnswered(cfg: Config, events: seq<Event>, id: Id, address: string, onPath: bool, now: int)
    requires |Outcomes(cfg, events)| == |events|
    requires id !in UnderWay(events, Outcomes(cfg, events)) && id !in Connected(events, Outcomes(cfg, events))
    ensures var under, open := UnderWay(events, Outcomes(cfg, events)), Connected(events, Outcomes(cfg, events));
            var out := OutcomeOf(cfg, events, Upgrade(id, address, onPath, now));
            out == Answer(cfg, Shutdown in events, onPath, |open|, Share(under, open, address), out.Admitted?)
  {
    LedgerIsExact(cfg, events);
    CountsAreExact(cfg, events);
    TableAnswers(cfg, Run(cfg, events), id, address, onPath, now);
  }

  /**
   * Over any run in which the clock never steps back and the table never has to be pruned to make room, the whole answer
   * is known from what came before: in the end the upgrade is let in exactly when a budget of a minute's worth, drawn on by
   * nothing but the address's own tries, has one left.
   */
  lemma UpgradeIsAnsweredInFull(cfg: Config, events: seq<Event>, start: int, id: Id, address: string, onPath: bool, now: int)
    requires Ordinary(cfg, events + [Upgrade(id, address, onPath, now)], start)
    requires |Outcomes(cfg, events)| == |events|
    requires id !in UnderWay(events, Outcomes(cfg, events)) && id !in Connected(events, Outcomes(cfg, events))
    ensures var outs := Outcomes(cfg, events);
            var under, open := UnderWay(events, outs), Connected(events, outs);
            OutcomeOf(cfg, events, Upgrade(id, address, onPath, now))
            == Answer(cfg, Shutdown in events, onPath, |open|, Share(under, open, address),
                      LetsThrough(cfg, Tries(events, outs, address), now))
  {
    var e := Upgrade(id, address, onPath, now);
    OrdinarySoFar(cfg, events, e, start);
    UpgradeIsAnswered(cfg, events, id, address, onPath, now);
    PruningIsUnobservable(cfg, events, start);
    CountsAreExact(cfg, events);
    BudgetsAreTries(cfg, events, address);
    LedgerIsExact(cfg, events);
    StepAlike(cfg, RunKeeping(cfg, events), Run(cfg, events), e, LastTime(events, start));
    TryDecides(cfg, RunKeeping(cfg, events), Tries(events, Outcomes(cfg, events), address), e);
  }

  lemma OrdinarySoFar(cfg: Config, events: seq<Event>, e: Event, start: int)
    requires Ordinary(cfg, events + [e], start)
    ensures Ordinary(cfg, events, start) && LastTime(events, start) <= TimeOf(e, LastTime(events, start)) && HasRoom(cfg, Run(cfg, events), e)
  {
    assert (events + [e])[..|events + [e]| - 1] == events;
  }

  /** Whoever gets as far as the budget is answered by it. */
  lemma TryDecides(cfg: Config, t: Table, tries: seq<Charge>, e: Event)
    requires e.Upgrade? && BudgetAt(cfg, t, tries, e.address)
    ensures var out := StepKeeping(cfg, t, e).outcome;
            out.Admitted? || out.TooFast? ==> (out.Admitted? <==> LetsThrough(cfg, tries, e.now))
  {
    CountedUpgrade(cfg, t, tries, e.id, e.address, e.now);
  }
}
