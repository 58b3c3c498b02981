/**
 * The token bucket behind every budget of the relay (relay/src/core/rateLimit.ts).
 * A bucket is two numbers; `Charged` is the whole of its behaviour, `TokenBucket` is
 * the mutable form, and the lemmas say what any run of takes can and cannot admit.
 * Tokens are reals: the rounding of doubles is not modelled.
 */
module RateLimit {
  datatype BucketState = BucketState(tokens: real, lastRefill: int)

  datatype Taken = Taken(ok: bool, state: BucketState)

  function MinReal(a: real, b: real): real {
    if a <= b then a else b
  }

  /** The clock movement a refill counts: none when the clock stepped backwards. */
  function Forward(earlier: int, later: int): nat {
    if later >= earlier then later - earlier else 0
  }

  /** What `elapsed` milliseconds are worth at `rate` tokens a second. */
  function Accrued(elapsed: nat, rate: real): real {
    elapsed as real * rate / 1000.0
  }

  function Refilled(b: BucketState, rate: real, burst: real, at: int): BucketState {
    BucketState(MinReal(burst, b.tokens + Accrued(Forward(b.lastRefill, at), rate)), at)
  }

  function Charged(b: BucketState, rate: real, burst: real, cost: real, at: int): Taken {
    var full := Refilled(b, rate, burst, at);
    if full.tokens < cost then Taken(false, full) else Taken(true, full.(tokens := full.tokens - cost))
  }

  class TokenBucket {
    const rate: real
    const burst: real
    var tokens: real
    var lastRefill: int

    ghost function State(): BucketState
      reads this
    {
      BucketState(tokens, lastRefill)
    }

    constructor (rate: real, burst: real, now: int)
      ensures this.rate == rate && this.burst == burst
      ensures State() == BucketState(burst, now)
    {
      this.rate, this.burst := rate, burst;
      tokens, lastRefill := burst, now;
    }

    /** A bucket read back from its snapshot. */
    constructor Restore(rate: real, burst: real, saved: BucketState)
      ensures this.rate == rate && this.burst == burst
      ensures State() == saved
    {
      this.rate, this.burst := rate, burst;
      tokens, lastRefill := saved.tokens, saved.lastRefill;
    }

    method Take(cost: real, at: int) returns (ok: bool)
      modifies this
      ensures Taken(ok, State()) == Charged(old(State()), rate, burst, cost, at)
    {
      var elapsed := if at - lastRefill > 0 then at - lastRefill else 0;
      lastRefill := at;
      var refilled := tokens + elapsed as real * rate / 1000.0;
      tokens := if burst <= refilled then burst else refilled;
      if tokens < cost {
        return false;
      }
      tokens := tokens - cost;
      return true;
    }
  }

  /** One charge: what it costs and when it is presented. */
  datatype Charge = Charge(cost: real, at: int)

  function After(b: BucketState, rate: real, burst: real, charges: seq<Charge>): BucketState {
    if charges == [] then b
    else
      var last := charges[|charges| - 1];
      Charged(After(b, rate, burst, charges[..|charges| - 1]), rate, burst, last.cost, last.at).state
  }

  /** The cost let through by a run of charges. */
  function Admitted(b: BucketState, rate: real, burst: real, charges: seq<Charge>): real {
    if charges == [] then 0.0
    else
      var before := charges[..|charges| - 1];
      var last := charges[|charges| - 1];
      Admitted(b, rate, burst, before) +
      if Charged(After(b, rate, burst, before), rate, burst, last.cost, last.at).ok then last.cost else 0.0
  }

  /** How far the clock moved forwards over a run, backward steps counting for nothing. */
  function ForwardOver(from: int, charges: seq<Charge>): nat {
    if charges == [] then 0
    else
      var before := charges[..|charges| - 1];
      ForwardOver(from, before) +
      Forward(if before == [] then from else before[|before| - 1].at, charges[|charges| - 1].at)
  }

  ghost predicate InRange(b: BucketState, burst: real) {
    0.0 <= b.tokens <= burst
  }

  ghost predicate NonNegative(charges: seq<Charge>) {
    forall i :: 0 <= i < |charges| ==> charges[i].cost >= 0.0
  }

  lemma AccruedNonNegative(elapsed: nat, rate: real)
    requires rate >= 0.0
    ensures Accrued(elapsed, rate) >= 0.0
  {
    assert elapsed as real * rate >= 0.0;
  }

  lemma AccruedAdds(first: nat, second: nat, rate: real)
    ensures Accrued(first + second, rate) == Accrued(first, rate) + Accrued(second, rate)
  {
    assert (first + second) as real * rate == first as real * rate + second as real * rate;
  }

  lemma ChargeBound(b: BucketState, rate: real, burst: real, cost: real, at: int)
    ensures var taken := Charged(b, rate, burst, cost, at);
            taken.state.tokens + (if taken.ok then cost else 0.0) <= b.tokens + Accrued(Forward(b.lastRefill, at), rate)
  {
  }

  lemma AfterRemembersLastCharge(b: BucketState, rate: real, burst: real, charges: seq<Charge>)
    ensures After(b, rate, burst, charges).lastRefill
         == if charges == [] then b.lastRefill else charges[|charges| - 1].at
  {
  }

  /** However often and however late it is asked, a bucket stays between empty and its burst. */
  lemma {:induction false} StaysInRange(b: BucketState, rate: real, burst: real, charges: seq<Charge>)
    requires InRange(b, burst) && rate >= 0.0 && NonNegative(charges)
    ensures InRange(After(b, rate, burst, charges), burst)
  {
    if charges != [] {
      var before := charges[..|charges| - 1];
      StaysInRange(b, rate, burst, before);
      var held := After(b, rate, burst, before);
      AccruedNonNegative(Forward(held.lastRefill, charges[|charges| - 1].at), rate);
    }
  }

  /**
   * The rate limit itself. What a run lets through, plus what is left over, is at most what
   * the bucket began with plus the rate times the forward movement of the clock.
   */
  lemma {:induction false} AdmitsAtMostRate(b: BucketState, rate: real, burst: real, charges: seq<Charge>)
    requires InRange(b, burst) && rate >= 0.0 && NonNegative(charges)
    ensures Admitted(b, rate, burst, charges) + After(b, rate, burst, charges).tokens
         <= b.tokens + Accrued(ForwardOver(b.lastRefill, charges), rate)
    ensures Admitted(b, rate, burst, charges)
         <= burst + Accrued(ForwardOver(b.lastRefill, charges), rate)
  {
    StaysInRange(b, rate, burst, charges);
    if charges != [] {
      var before := charges[..|charges| - 1];
      var last := charges[|charges| - 1];
      AdmitsAtMostRate(b, rate, burst, before);
      AfterRemembersLastCharge(b, rate, burst, before);
      var held := After(b, rate, burst, before);
      ChargeBound(held, rate, burst, last.cost, last.at);
      AccruedAdds(ForwardOver(b.lastRefill, before), Forward(held.lastRefill, last.at), rate);
    }
  }

  /** A clock that steps backwards hands nobody free budget: the refill is worth nothing. */
  lemma BackwardStepAddsNothing(b: BucketState, rate: real, burst: real, cost: real, at: int)
    requires InRange(b, burst) && at <= b.lastRefill
    ensures Charged(b, rate, burst, cost, at).ok <==> cost <= b.tokens
    ensures Charged(b, rate, burst, cost, at).state.tokens
         == b.tokens - if cost <= b.tokens then cost else 0.0
  {
  }

  /** Stopping anywhere in a run and carrying on from the snapshot is the same run. */
  lemma {:induction false} ContinuesFromSnapshot(b: BucketState, rate: real, burst: real, first: seq<Charge>, rest: seq<Charge>)
    ensures After(After(b, rate, burst, first), rate, burst, rest) == After(b, rate, burst, first + rest)
    ensures Admitted(b, rate, burst, first + rest)
         == Admitted(b, rate, burst, first) + Admitted(After(b, rate, burst, first), rate, burst, rest)
  {
    if rest == [] {
      assert first + rest == first;
    } else {
      ContinuesFromSnapshot(b, rate, burst, first, rest[..|rest| - 1]);
      assert (first + rest)[..|first + rest| - 1] == first + rest[..|rest| - 1];
    }
  }

  /**
   * One second of forward clock after its last charge, a bucket whose burst is its rate is
   * full, so a single frame no larger than the cap always fits when the rate is at least the cap.
   */
  lemma FrameFitsAfterASecond(b: BucketState, rate: real, cap: real, cost: real, at: int)
    requires InRange(b, rate) && 0.0 <= cap <= rate && cost <= cap
    requires at - b.lastRefill >= 1000
    ensures Charged(b, rate, rate, cost, at).ok
    ensures Charged(b, rate, rate, cost, at).state.tokens == rate - cost
  {
    var elapsed := Forward(b.lastRefill, at);
    AccruedAdds(1000, elapsed - 1000, rate);
    AccruedNonNegative(elapsed - 1000, rate);
  }

  // ---------------------------------------------------------------- what is refused, and nothing else

  /** The bucket's answers to a run of charges. */
  function Answers(b: BucketState, rate: real, burst: real, charges: seq<Charge>): (oks: seq<bool>)
    ensures |oks| == |charges|
  {
    if charges == [] then []
    else
      var before, last := charges[..|charges| - 1], charges[|charges| - 1];
      Answers(b, rate, burst, before) + [Charged(After(b, rate, burst, before), rate, burst, last.cost, last.at).ok]
  }

  /** The costs of the charges from `j` up to `k` that were answered yes. */
  function Drawn(charges: seq<Charge>, oks: seq<bool>, j: nat, k: nat): real
    requires j <= k <= |charges| == |oks|
    decreases k
  {
    if j == k then 0.0 else Drawn(charges, oks, j, k - 1) + if oks[k - 1] then charges[k - 1].cost else 0.0
  }

  /** How far the clock moved forwards between two charges. */
  function ForwardBetween(charges: seq<Charge>, j: nat, k: nat): nat
    requires j <= k < |charges|
    decreases k
  {
    if j == k then 0 else ForwardBetween(charges, j, k - 1) + Forward(charges[k - 1].at, charges[k].at)
  }

  /** The most there can be for charge `k`, full as the bucket may have been at charge `j`. */
  function SinceFull(rate: real, burst: real, charges: seq<Charge>, oks: seq<bool>, j: nat, k: nat): real
    requires j <= k < |charges| == |oks|
  {
    burst + Accrued(ForwardBetween(charges, j, k), rate) - Drawn(charges, oks, j, k)
  }

  /** The most there can be for charge `k`, given what the run began with. */
  function SinceStart(b: BucketState, rate: real, charges: seq<Charge>, oks: seq<bool>, k: nat): real
    requires k < |charges| == |oks|
  {
    b.tokens + Accrued(Forward(b.lastRefill, charges[0].at) + ForwardBetween(charges, 0, k), rate) - Drawn(charges, oks, 0, k)
  }

  lemma {:induction false} DrawnOfPrefix(charges: seq<Charge>, oks: seq<bool>, n: nat, j: nat, k: nat)
    requires j <= k <= n <= |charges| == |oks|
    ensures Drawn(charges[..n], oks[..n], j, k) == Drawn(charges, oks, j, k)
    decreases k
  {
    if j < k {
      DrawnOfPrefix(charges, oks, n, j, k - 1);
    }
  }

  lemma {:induction false} ForwardOfPrefix(charges: seq<Charge>, n: nat, j: nat, k: nat)
    requires j <= k < n <= |charges|
    ensures ForwardBetween(charges[..n], j, k) == ForwardBetween(charges, j, k)
    decreases k
  {
    if j < k {
      ForwardOfPrefix(charges, n, j, k - 1);
    }
  }

  lemma {:induction false} AnswersOfPrefix(b: BucketState, rate: real, burst: real, charges: seq<Charge>, n: nat)
    requires n <= |charges|
    ensures Answers(b, rate, burst, charges)[..n] == Answers(b, rate, burst, charges[..n])
  {
    if n < |charges| {
      AnswersOfPrefix(b, rate, burst, charges[..|charges| - 1], n);
      assert charges[..|charges| - 1][..n] == charges[..n];
    } else {
      assert charges[..n] == charges;
    }
  }

  /** What the bucket holds for charge `k`, topped up. */
  function Held(b: BucketState, rate: real, burst: real, charges: seq<Charge>, k: nat): real
    requires k < |charges|
  {
    Refilled(After(b, rate, burst, charges[..k]), rate, burst, charges[k].at).tokens
  }

  lemma AnswerAt(b: BucketState, rate: real, burst: real, charges: seq<Charge>, k: nat)
    requires k < |charges|
    ensures Answers(b, rate, burst, charges)[k] <==> charges[k].cost <= Held(b, rate, burst, charges, k)
  {
    AnswersOfPrefix(b, rate, burst, charges, k + 1);
    assert charges[..k + 1][..k] == charges[..k];
    assert Answers(b, rate, burst, charges[..k + 1])[k] == Answers(b, rate, burst, charges)[..k + 1][k];
  }

  lemma HeldNext(b: BucketState, rate: real, burst: real, charges: seq<Charge>, k: nat)
    requires 0 < k < |charges|
    ensures var left := Held(b, rate, burst, charges, k - 1) - if Answers(b, rate, burst, charges)[k - 1] then charges[k - 1].cost else 0.0;
            Held(b, rate, burst, charges, k) == MinReal(burst, left + Accrued(Forward(charges[k - 1].at, charges[k].at), rate))
  {
    AnswerAt(b, rate, burst, charges, k - 1);
    assert charges[..k][..k - 1] == charges[..k - 1];
  }

  /** A bound at one charge, carried to the next. */
  function BoundNext(rate: real, charges: seq<Charge>, oks: seq<bool>, k: nat, bound: real): real
    requires 0 < k < |charges| == |oks|
  {
    bound - (if oks[k - 1] then charges[k - 1].cost else 0.0) + Accrued(Forward(charges[k - 1].at, charges[k].at), rate)
  }

  lemma BoundsNext(b: BucketState, rate: real, burst: real, charges: seq<Charge>, oks: seq<bool>, j: nat, k: nat)
    requires j < k < |charges| == |oks|
    ensures SinceFull(rate, burst, charges, oks, j, k) == BoundNext(rate, charges, oks, k, SinceFull(rate, burst, charges, oks, j, k - 1))
    ensures SinceStart(b, rate, charges, oks, k) == BoundNext(rate, charges, oks, k, SinceStart(b, rate, charges, oks, k - 1))
  {
    var moved := Forward(charges[k - 1].at, charges[k].at);
    AccruedAdds(ForwardBetween(charges, j, k - 1), moved, rate);
    AccruedAdds(Forward(b.lastRefill, charges[0].at) + ForwardBetween(charges, 0, k - 1), moved, rate);
  }

  ghost predicate AtFull(held: real, rate: real, burst: real, charges: seq<Charge>, oks: seq<bool>, k: nat)
    requires k < |charges| == |oks|
  {
    exists j :: 0 <= j <= k && held == SinceFull(rate, burst, charges, oks, j, k)
  }

  ghost predicate WithinFull(held: real, rate: real, burst: real, charges: seq<Charge>, oks: seq<bool>, k: nat)
    requires k < |charges| == |oks|
  {
    forall j :: 0 <= j <= k ==> held <= SinceFull(rate, burst, charges, oks, j, k)
  }

  lemma WithinFullNext(b: BucketState, held: real, rate: real, burst: real, charges: seq<Charge>, oks: seq<bool>, k: nat)
    requires 0 < k < |charges| == |oks|
    ensures WithinFull(held, rate, burst, charges, oks, k - 1) ==>
              WithinFull(MinReal(burst, BoundNext(rate, charges, oks, k, held)), rate, burst, charges, oks, k)
    ensures AtFull(held, rate, burst, charges, oks, k - 1) ==> AtFull(BoundNext(rate, charges, oks, k, held), rate, burst, charges, oks, k)
    ensures AtFull(burst, rate, burst, charges, oks, k)
  {
    assert SinceFull(rate, burst, charges, oks, k, k) == burst;
    forall j | 0 <= j < k
      ensures SinceFull(rate, burst, charges, oks, j, k) == BoundNext(rate, charges, oks, k, SinceFull(rate, burst, charges, oks, j, k - 1))
    {
      BoundsNext(b, rate, burst, charges, oks, j, k);
    }
    if AtFull(held, rate, burst, charges, oks, k - 1) {
      var j :| 0 <= j <= k - 1 && held == SinceFull(rate, burst, charges, oks, j, k - 1);
      assert SinceFull(rate, burst, charges, oks, j, k) == BoundNext(rate, charges, oks, k, held);
    }
  }

  /** What is held is within every one of the bounds, and is one of them. */
  lemma {:induction false} HeldIsLeastBound(b: BucketState, rate: real, burst: real, charges: seq<Charge>, k: nat)
    requires k < |charges|
    ensures var oks, held := Answers(b, rate, burst, charges), Held(b, rate, burst, charges, k);
            && held <= SinceStart(b, rate, charges, oks, k) && WithinFull(held, rate, burst, charges, oks, k)
            && (held == SinceStart(b, rate, charges, oks, k) || AtFull(held, rate, burst, charges, oks, k))
    decreases k
  {
    var oks := Answers(b, rate, burst, charges);
    if k == 0 {
      assert charges[..0] == [];
      assert SinceFull(rate, burst, charges, oks, 0, 0) == burst;
    } else {
      HeldIsLeastBound(b, rate, burst, charges, k - 1);
      HeldNext(b, rate, burst, charges, k);
      WithinFullNext(b, Held(b, rate, burst, charges, k - 1), rate, burst, charges, oks, k);
      BoundsNext(b, rate, burst, charges, oks, 0, k);
    }
  }

  /**
   * The limit from both sides. Over any run, whatever the clock does, a charge is refused exactly when the bucket could
   * not hold its cost: because of what the run began with, or because even a bucket full at some earlier charge, with
   * all that accrued since, would have spent too much by now.
   */
  lemma RefusedExactly(b: BucketState, rate: real, burst: real, charges: seq<Charge>, k: nat)
    requires k < |charges|
    ensures var oks := Answers(b, rate, burst, charges);
            !oks[k] <==>
              || SinceStart(b, rate, charges, oks, k) < charges[k].cost
              || exists j :: 0 <= j <= k && SinceFull(rate, burst, charges, oks, j, k) < charges[k].cost
  {
    AnswerAt(b, rate, burst, charges, k);
    HeldIsLeastBound(b, rate, burst, charges, k);
  }

  /** What charges from `j` to `k`, both counted, cost in all. */
  function Asked(charges: seq<Charge>, j: nat, k: nat): real
    requires j <= k < |charges|
    decreases k
  {
    (if j == k then 0.0 else Asked(charges, j, k - 1)) + charges[k].cost
  }

  /** No stretch of the run asks for more than a full bucket and what accrues meanwhile, nor than the start allows. */
  ghost predicate Modest(b: BucketState, rate: real, burst: real, charges: seq<Charge>) {
    forall j, k :: 0 <= j <= k < |charges| ==>
      && Asked(charges, j, k) <= burst + Accrued(ForwardBetween(charges, j, k), rate)
      && Asked(charges, 0, k) <= b.tokens + Accrued(Forward(b.lastRefill, charges[0].at) + ForwardBetween(charges, 0, k), rate)
  }

  lemma {:induction false} DrawnIsAsked(charges: seq<Charge>, oks: seq<bool>, j: nat, k: nat)
    requires j <= k < |charges| == |oks| && NonNegative(charges)
    ensures Drawn(charges, oks, j, k) + charges[k].cost <= Asked(charges, j, k)
    decreases k
  {
    if j < k {
      DrawnIsAsked(charges, oks, j, k - 1);
    }
  }

  /** A run that asks for no more than the limit anywhere is let through whole. */
  lemma ModestIsAdmitted(b: BucketState, rate: real, burst: real, charges: seq<Charge>, k: nat)
    requires k < |charges| && NonNegative(charges) && Modest(b, rate, burst, charges)
    ensures Answers(b, rate, burst, charges)[k]
  {
    var oks := Answers(b, rate, burst, charges);
    RefusedExactly(b, rate, burst, charges, k);
    forall j | 0 <= j <= k
      ensures SinceFull(rate, burst, charges, oks, j, k) >= charges[k].cost
    {
      DrawnIsAsked(charges, oks, j, k);
    }
    DrawnIsAsked(charges, oks, 0, k);
  }
}
