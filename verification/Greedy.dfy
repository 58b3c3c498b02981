/**
 * How far a settlement pays the largest debt from the largest credit (examples/ledger/src/settle.js). It sorts once, so
 * a half-paid head may no longer be the largest of its queue; whether that ever happens is read off the sums to settle.
 */
module Greedy {
  import opened Settle
  import opened Sorting
  import opened Wrappers

  /** At every payment, nobody is owed more than the one paid, and nobody owes more than the one who pays. */
  ghost predicate LargestPaysLargest(rows: seq<Row>, transfers: seq<Transfer>) {
    forall k, person :: 0 <= k < |transfers| ==> LargestAt(rows, transfers[..k], transfers[k], person)
  }

  predicate LargestAt(rows: seq<Row>, made: seq<Transfer>, next: Transfer, person: string) {
    After(rows, made, next.payer) <= After(rows, made, person) <= After(rows, made, next.payee)
  }

  /** What the first `n` of a queue come to. */
  function Prefix(queue: seq<Row>, n: nat): int
    requires n <= |queue|
  {
    if n == 0 then 0 else queue[0].cents + Prefix(queue[1..], n - 1)
  }

  /**
   * Whenever some debts together end inside a credit (or credits inside a debt), what is left of it is no less than
   * the one after it.
   */
  ghost predicate Covers(queue: seq<Row>, other: seq<Row>) {
    forall i: nat, j: nat :: i + 1 < |queue| && j < |other| ==> CoversAt(queue, other, i, j)
  }

  predicate CoversAt(queue: seq<Row>, other: seq<Row>, i: nat, j: nat)
    requires i + 1 < |queue| && j < |other|
  {
    Prefix(queue, i) < Prefix(other, j) < Prefix(queue, i + 1) ==>
      Prefix(queue, i + 1) - Prefix(other, j) >= queue[i + 1].cents
  }

  // ---------------------------------------------------------------- the two queues

  predicate Leads(queue: seq<Row>) {
    forall i :: 0 <= i < |queue| ==> queue[i].cents <= queue[0].cents
  }

  /** The heads are the largest of their queues at every payment. */
  ghost predicate AlwaysLeads(creditors: seq<Row>, debtors: seq<Row>)
    decreases |creditors| + |debtors|
  {
    creditors == [] || debtors == [] ||
    var amount := Min(creditors[0].cents, debtors[0].cents);
    Leads(creditors) && Leads(debtors) && AlwaysLeads(Less(creditors, amount), Less(debtors, amount))
  }

  /** In order of size but for the head, which may be partly paid. */
  predicate TailDescends(queue: seq<Row>) {
    forall i, j :: 1 <= i < j < |queue| ==> queue[i].cents >= queue[j].cents
  }

  lemma LeadsByNext(queue: seq<Row>)
    requires TailDescends(queue)
    ensures Leads(queue) <==> (|queue| > 1 ==> queue[0].cents >= queue[1].cents)
  {
  }

  lemma {:induction false} PrefixIsPositive(queue: seq<Row>, n: nat)
    requires AllOwed(queue) && 0 < n <= |queue|
    ensures Prefix(queue, n) >= queue[0].cents
  {
    if n > 1 {
      PrefixIsPositive(queue[1..], n - 1);
    }
  }

  /** Once the smaller head is paid off, the sums of what is left are the sums there were, less that head. */
  lemma {:induction false} PrefixOfPaid(queue: seq<Row>, amount: int, n: nat)
    requires 0 < n <= |queue| && queue[0].cents != amount
    ensures |Less(queue, amount)| == |queue| && Prefix(Less(queue, amount), n) == Prefix(queue, n) - amount
  {
    assert Less(queue, amount)[1..] == queue[1..];
  }

  /** The shorter-lived head is paid off: its own queue's sums are covered as they were. */
  lemma CoversBeyondHead(queue: seq<Row>, other: seq<Row>)
    requires queue != [] && other != [] && AllOwed(queue) && AllOwed(other) && queue[0].cents < other[0].cents
    ensures Covers(queue, other) <==> Covers(queue[1..], Less(other, queue[0].cents))
  {
    var amount := queue[0].cents;
    var rest, paid := queue[1..], Less(other, amount);
    forall i: nat, j: nat | i + 1 < |queue| && j < |other|
      ensures i == 0 || j == 0 ==> CoversAt(queue, other, i, j)
      ensures i > 0 ==> (CoversAt(queue, other, i, j) <==> CoversAt(rest, paid, i - 1, j))
    {
      if j > 0 {
        PrefixIsPositive(other, j);
        PrefixOfPaid(other, amount, j);
      }
      if i > 0 {
        PrefixIsPositive(queue, i);
        if i > 1 {
          PrefixIsPositive(rest, i - 1);
        }
      }
    }
    assert forall i: nat, j: nat :: i + 1 < |rest| && j < |paid| ==> (CoversAt(queue, other, i + 1, j) <==> CoversAt(rest, paid, i, j));
  }

  /** One pair of sums, before and after the smaller head is paid off. */
  lemma CoversAtPartlyPaid(queue: seq<Row>, other: seq<Row>, i: nat, j: nat)
    requires queue != [] && other != [] && AllOwed(queue) && AllOwed(other) && queue[0].cents < other[0].cents
    requires i + 1 < |other| && j < |queue|
    ensures j == 0 || (j == 1 && i > 0) ==> CoversAt(other, queue, i, j)
    ensures j == 1 && i == 0 ==> (CoversAt(other, queue, i, j) <==> other[0].cents - queue[0].cents >= other[1].cents)
    ensures j > 1 ==> (CoversAt(other, queue, i, j) <==> CoversAt(Less(other, queue[0].cents), queue[1..], i, j - 1))
    ensures j == 1 ==> CoversAt(Less(other, queue[0].cents), queue[1..], i, j - 1)
  {
    PrefixOfPaid(other, queue[0].cents, i + 1);
    if i > 0 {
      PrefixIsPositive(other, i);
      PrefixOfPaid(other, queue[0].cents, i);
    }
    if j > 1 {
      PrefixIsPositive(queue[1..], j - 1);
    }
  }

  /** The other head is left partly paid: what is left of it must cover the one behind it. */
  lemma CoversPartlyPaid(queue: seq<Row>, other: seq<Row>)
    requires queue != [] && other != [] && AllOwed(queue) && AllOwed(other) && queue[0].cents < other[0].cents
    ensures Covers(other, queue) <==>
              && (|queue| > 1 && |other| > 1 ==> other[0].cents - queue[0].cents >= other[1].cents)
              && Covers(Less(other, queue[0].cents), queue[1..])
  {
    var rest, paid := queue[1..], Less(other, queue[0].cents);
    if Covers(other, queue) {
      forall i: nat, j: nat | i + 1 < |paid| && j < |rest|
        ensures CoversAt(paid, rest, i, j)
      {
        CoversAtPartlyPaid(queue, other, i, j + 1);
        assert CoversAt(other, queue, i, j + 1);
      }
      if |queue| > 1 && |other| > 1 {
        CoversAtPartlyPaid(queue, other, 0, 1);
        assert CoversAt(other, queue, 0, 1);
      }
    } else {
      var i: nat, j: nat :| i + 1 < |other| && j < |queue| && !CoversAt(other, queue, i, j);
      CoversAtPartlyPaid(queue, other, i, j);
      assert j > 1 ==> !CoversAt(paid, rest, i, j - 1);
    }
  }

  /** Both heads are paid off at once. */
  lemma CoversBothPaid(queue: seq<Row>, other: seq<Row>)
    requires queue != [] && other != [] && AllOwed(queue) && AllOwed(other) && queue[0].cents == other[0].cents
    ensures Covers(queue, other) <==> Covers(queue[1..], other[1..])
  {
    var rest, behind := queue[1..], other[1..];
    forall i: nat, j: nat | i + 1 < |queue| && j < |other|
      ensures i == 0 || j == 0 ==> CoversAt(queue, other, i, j)
      ensures i > 0 && j > 0 ==> (CoversAt(queue, other, i, j) <==> CoversAt(rest, behind, i - 1, j - 1))
    {
      if j > 0 {
        PrefixIsPositive(other, j);
      }
      if i > 0 {
        PrefixIsPositive(queue, i);
      }
    }
    assert forall i: nat, j: nat :: i + 1 < |rest| && j < |behind| ==>
             (CoversAt(queue, other, i + 1, j + 1) <==> CoversAt(rest, behind, i, j));
  }

  predicate Sound(creditors: seq<Row>, debtors: seq<Row>) {
    AllOwed(creditors) && AllOwed(debtors) && TailDescends(creditors) && TailDescends(debtors)
  }

  /** What the sums of the two queues must be for their heads to stay the largest. */
  ghost predicate Alongside(creditors: seq<Row>, debtors: seq<Row>) {
    creditors == [] || debtors == [] ||
    (Leads(creditors) && Leads(debtors) && Covers(creditors, debtors) && Covers(debtors, creditors))
  }

  lemma SmallerHeadGoes(queue: seq<Row>, other: seq<Row>)
    requires Sound(queue, other) && queue != [] && other != [] && queue[0].cents < other[0].cents
    ensures Sound(queue[1..], Less(other, queue[0].cents))
    ensures Leads(queue) && Leads(other) ==>
              (Covers(queue, other) && Covers(other, queue) <==> Alongside(queue[1..], Less(other, queue[0].cents)))
  {
    var rest, paid := queue[1..], Less(other, queue[0].cents);
    LeadsByNext(rest);
    LeadsByNext(paid);
    CoversBeyondHead(queue, other);
    CoversPartlyPaid(queue, other);
  }

  lemma BothHeadsGo(queue: seq<Row>, other: seq<Row>)
    requires Sound(queue, other) && queue != [] && other != [] && queue[0].cents == other[0].cents
    ensures Sound(queue[1..], other[1..])
    ensures Covers(queue, other) && Covers(other, queue) <==> Alongside(queue[1..], other[1..])
  {
    LeadsByNext(queue[1..]);
    LeadsByNext(other[1..]);
    CoversBothPaid(queue, other);
    CoversBothPaid(other, queue);
  }

  lemma {:induction false} QueuesExactly(creditors: seq<Row>, debtors: seq<Row>)
    requires Sound(creditors, debtors)
    ensures AlwaysLeads(creditors, debtors) <==> Alongside(creditors, debtors)
    decreases |creditors| + |debtors|
  {
    if creditors != [] && debtors != [] {
      var credit, debt := creditors[0].cents, debtors[0].cents;
      if credit < debt {
        SmallerHeadGoes(creditors, debtors);
        QueuesExactly(creditors[1..], Less(debtors, credit));
      } else if debt < credit {
        SmallerHeadGoes(debtors, creditors);
        QueuesExactly(Less(creditors, debt), debtors[1..]);
      } else {
        BothHeadsGo(creditors, debtors);
        QueuesExactly(creditors[1..], debtors[1..]);
      }
    }
  }

  // ---------------------------------------------------------------- from the queues to the people

  /** Where a person of two queues stands once some transfers are made. */
  function Standing(creditors: seq<Row>, debtors: seq<Row>, made: seq<Transfer>, person: string): int {
    Net(creditors, person) - Net(debtors, person) + PaidBy(made, person) - PaidTo(made, person)
  }

  predicate HeadsAt(creditors: seq<Row>, debtors: seq<Row>, made: seq<Transfer>, next: Transfer, person: string) {
    var at := Standing(creditors, debtors, made, person);
    Standing(creditors, debtors, made, next.payer) <= at <= Standing(creditors, debtors, made, next.payee)
  }

  ghost predicate HeadsLargest(creditors: seq<Row>, debtors: seq<Row>, transfers: seq<Transfer>) {
    forall k, person :: 0 <= k < |transfers| ==> HeadsAt(creditors, debtors, transfers[..k], transfers[k], person)
  }

  predicate Apart(creditors: seq<Row>, debtors: seq<Row>) {
    && OneRowEach(creditors) && OneRowEach(debtors) && AllOwed(creditors) && AllOwed(debtors)
    && forall i, j :: 0 <= i < |creditors| && 0 <= j < |debtors| ==> creditors[i].person != debtors[j].person
  }

  lemma NetOfAnybody(queue: seq<Row>, person: string)
    requires OneRowEach(queue) && AllOwed(queue)
    ensures Net(queue, person) >= 0
    ensures Named(queue, person) ==> exists i :: 0 <= i < |queue| && queue[i].person == person && Net(queue, person) == queue[i].cents
    ensures !Named(queue, person) ==> Net(queue, person) == 0
    ensures queue != [] ==> Net(queue, queue[0].person) == queue[0].cents
  {
    if queue != [] {
      NetOfNamed(queue, queue[0]);
    }
    if Named(queue, person) {
      var i :| 0 <= i < |queue| && queue[i].person == person;
      NetOfNamed(queue, queue[i]);
    } else {
      NetOfUnnamed(queue, person);
    }
  }

  lemma LeadIsLargest(queue: seq<Row>, person: string)
    requires OneRowEach(queue) && AllOwed(queue) && queue != [] && Leads(queue)
    ensures Net(queue, person) <= Net(queue, queue[0].person)
  {
    NetOfAnybody(queue, person);
  }

  /** The first payment is from the largest debt to the largest credit just when each leads its queue. */
  lemma FirstIsLargest(creditors: seq<Row>, debtors: seq<Row>, next: Transfer)
    requires Apart(creditors, debtors) && creditors != [] && debtors != []
    requires next.payer == debtors[0].person && next.payee == creditors[0].person
    ensures (forall person :: HeadsAt(creditors, debtors, [], next, person)) <==> Leads(creditors) && Leads(debtors)
  {
    NetOfAnybody(creditors, next.payer);
    NetOfAnybody(debtors, next.payee);
    if Leads(creditors) && Leads(debtors) {
      forall person
        ensures HeadsAt(creditors, debtors, [], next, person)
      {
        LeadIsLargest(creditors, person);
        LeadIsLargest(debtors, person);
        NetOfAnybody(creditors, person);
        NetOfAnybody(debtors, person);
      }
    }
    if forall person :: HeadsAt(creditors, debtors, [], next, person) {
      forall i | 0 <= i < |creditors|
        ensures creditors[i].cents <= creditors[0].cents
      {
        NetOfNamed(creditors, creditors[i]);
        NetOfAnybody(debtors, creditors[i].person);
        assert HeadsAt(creditors, debtors, [], next, creditors[i].person);
      }
      forall i | 0 <= i < |debtors|
        ensures debtors[i].cents <= debtors[0].cents
      {
        NetOfNamed(debtors, debtors[i]);
        NetOfAnybody(creditors, debtors[i].person);
        assert HeadsAt(creditors, debtors, [], next, debtors[i].person);
      }
    }
  }

  lemma LessStaysApart(creditors: seq<Row>, debtors: seq<Row>)
    requires Apart(creditors, debtors) && creditors != [] && debtors != []
    ensures var amount := Min(creditors[0].cents, debtors[0].cents); Apart(Less(creditors, amount), Less(debtors, amount))
  {
    var amount := Min(creditors[0].cents, debtors[0].cents);
    LessStaysOwed(creditors, amount);
    LessStaysOwed(debtors, amount);
  }

  lemma StandingLater(creditors: seq<Row>, debtors: seq<Row>, amount: int, made: seq<Transfer>, person: string)
    requires creditors != [] && debtors != []
    ensures Standing(creditors, debtors, [Transfer(debtors[0].person, creditors[0].person, amount)] + made, person)
         == Standing(Less(creditors, amount), Less(debtors, amount), made, person)
  {
    LessTakes(creditors, amount, person);
    LessTakes(debtors, amount, person);
    assert ([Transfer(debtors[0].person, creditors[0].person, amount)] + made)[1..] == made;
  }

  lemma HeadsLater(creditors: seq<Row>, debtors: seq<Row>, amount: int, rest: seq<Transfer>)
    requires creditors != [] && debtors != []
    ensures var first := Transfer(debtors[0].person, creditors[0].person, amount);
            HeadsLargest(creditors, debtors, [first] + rest) <==>
              && (forall person :: HeadsAt(creditors, debtors, [], first, person))
              && HeadsLargest(Less(creditors, amount), Less(debtors, amount), rest)
  {
    var first := Transfer(debtors[0].person, creditors[0].person, amount);
    var all := [first] + rest;
    assert all[..0] == [];
    forall k, person | 0 <= k < |rest|
      ensures HeadsAt(creditors, debtors, all[..k + 1], all[k + 1], person)
         <==> HeadsAt(Less(creditors, amount), Less(debtors, amount), rest[..k], rest[k], person)
    {
      assert all[..k + 1] == [first] + rest[..k];
      StandingLater(creditors, debtors, amount, rest[..k], person);
      StandingLater(creditors, debtors, amount, rest[..k], rest[k].payer);
      StandingLater(creditors, debtors, amount, rest[..k], rest[k].payee);
    }
    if HeadsLargest(creditors, debtors, all) {
      forall person
        ensures HeadsAt(creditors, debtors, [], first, person)
      {
        assert HeadsAt(creditors, debtors, all[..0], all[0], person);
      }
      forall k, person | 0 <= k < |rest|
        ensures HeadsAt(Less(creditors, amount), Less(debtors, amount), rest[..k], rest[k], person)
      {
        assert HeadsAt(creditors, debtors, all[..k + 1], all[k + 1], person);
      }
    } else {
      var k, person :| 0 <= k < |all| && !HeadsAt(creditors, debtors, all[..k], all[k], person);
      if k > 0 {
        assert !HeadsAt(Less(creditors, amount), Less(debtors, amount), rest[..k - 1], rest[k - 1], person);
      }
    }
  }

  lemma {:induction false} PeopleExactly(creditors: seq<Row>, debtors: seq<Row>)
    requires Apart(creditors, debtors)
    ensures HeadsLargest(creditors, debtors, Payments(creditors, debtors)) <==> AlwaysLeads(creditors, debtors)
    decreases |creditors| + |debtors|
  {
    if creditors != [] && debtors != [] {
      var amount := Min(creditors[0].cents, debtors[0].cents);
      var left, right := Less(creditors, amount), Less(debtors, amount);
      LessStaysApart(creditors, debtors);
      PeopleExactly(left, right);
      FirstIsLargest(creditors, debtors, Transfer(debtors[0].person, creditors[0].person, amount));
      HeadsLater(creditors, debtors, amount, Payments(left, right));
    }
  }

  // ---------------------------------------------------------------- the promise

  function Credits(rows: seq<Row>, names: NameOrder): seq<Row> {
    Sorted(Creditors(rows), (left, right) => ByWeight(names, left, right))
  }

  function Debts(rows: seq<Row>, names: NameOrder): seq<Row> {
    Sorted(Debtors(rows), (left, right) => ByWeight(names, left, right))
  }

  lemma QueueDescends(queue: seq<Row>, names: NameOrder)
    requires TotalOrder(names) && AllOwed(queue)
    ensures var sorted := Sorted(queue, (left, right) => ByWeight(names, left, right));
            AllOwed(sorted) && TailDescends(sorted) && Leads(sorted)
  {
    var order := (left, right) => ByWeight(names, left, right);
    QueueSums(queue, names, "");
    var sorted := Sorted(queue, order);
    forall i, j | 0 <= i < j < |sorted|
      ensures sorted[i].cents >= sorted[j].cents
    {
      assert order(sorted[i], sorted[j]);
    }
  }

  lemma {:induction false} SidesAreOneEach(rows: seq<Row>)
    requires OneRowEach(rows)
    ensures OneRowEach(Creditors(rows)) && OneRowEach(Debtors(rows))
  {
    if rows != [] {
      SidesAreOneEach(rows[..|rows| - 1]);
      SideOf(rows[..|rows| - 1]);
    }
  }

  lemma QueueIsOneEach(queue: seq<Row>, names: NameOrder)
    requires TotalOrder(names) && OneRowEach(queue) && AllOwed(queue)
    ensures var sorted := Sorted(queue, (left, right) => ByWeight(names, left, right));
            OneRowEach(sorted) && AllOwed(sorted) && forall r :: r in sorted ==> r in queue
  {
    var order := (left, right) => ByWeight(names, left, right);
    ByWeightIsTotal(names);
    QueueSums(queue, names, "");
    SortedIsOrdered(queue, order);
    SameRowsDistinct(queue, Sorted(queue, order));
  }

  lemma SidesAreApart(rows: seq<Row>, names: NameOrder)
    requires TotalOrder(names) && OneRowEach(rows)
    ensures Apart(Credits(rows, names), Debts(rows, names))
  {
    SplitBySign(rows, "");
    SidesAreOneEach(rows);
    SideOf(rows);
    QueueIsOneEach(Creditors(rows), names);
    QueueIsOneEach(Debtors(rows), names);
    NobodyOnBothSides(rows, Credits(rows, names), Debts(rows, names));
  }

  lemma NobodyOnBothSides(rows: seq<Row>, credits: seq<Row>, debts: seq<Row>)
    requires OneRowEach(rows)
    requires forall r :: r in credits ==> r in rows && r.cents > 0
    requires forall r :: r in debts ==> Row(r.person, -r.cents) in rows && r.cents > 0
    ensures forall i, j :: 0 <= i < |credits| && 0 <= j < |debts| ==> credits[i].person != debts[j].person
  {
    forall i, j | 0 <= i < |credits| && 0 <= j < |debts|
      ensures credits[i].person != debts[j].person
    {
      assert credits[i] in rows && Row(debts[j].person, -debts[j].cents) in rows;
    }
  }

  /**
   * The comment's promise, exactly: every payment is from the largest debt to the largest credit of its moment just
   * when, in the sorted amounts, every credit some debts end inside of is left with no less than the next credit, and
   * the same of the debts.
   */
  lemma LargestPaysLargestExactly(rows: seq<Row>, names: NameOrder)
    requires TotalOrder(names) && OneRowEach(rows)
    ensures LargestPaysLargest(rows, Settlement(rows, names)) <==>
              Covers(Credits(rows, names), Debts(rows, names)) && Covers(Debts(rows, names), Credits(rows, names))
  {
    var credits, debts, transfers := Credits(rows, names), Debts(rows, names), Settlement(rows, names);
    SplitBySign(rows, "");
    QueueDescends(Creditors(rows), names);
    QueueDescends(Debtors(rows), names);
    SidesAreApart(rows, names);
    QueuesExactly(credits, debts);
    PeopleExactly(credits, debts);
    forall made: seq<Transfer>, next: Transfer, person: string
      ensures LargestAt(rows, made, next, person) <==> HeadsAt(credits, debts, made, next, person)
    {
      StandsAs(rows, names, made, person);
      StandsAs(rows, names, made, next.payer);
      StandsAs(rows, names, made, next.payee);
    }
    SameThroughout(rows, credits, debts, transfers);
  }

  lemma StandsAs(rows: seq<Row>, names: NameOrder, made: seq<Transfer>, person: string)
    requires TotalOrder(names)
    ensures After(rows, made, person) == Standing(Credits(rows, names), Debts(rows, names), made, person)
  {
    SplitBySign(rows, person);
    QueueSums(Creditors(rows), names, person);
    QueueSums(Debtors(rows), names, person);
  }

  lemma SameThroughout(rows: seq<Row>, credits: seq<Row>, debts: seq<Row>, transfers: seq<Transfer>)
    requires forall made, next, person :: LargestAt(rows, made, next, person) <==> HeadsAt(credits, debts, made, next, person)
    ensures LargestPaysLargest(rows, transfers) <==> HeadsLargest(credits, debts, transfers)
  {
    if LargestPaysLargest(rows, transfers) {
      forall k, person | 0 <= k < |transfers|
        ensures HeadsAt(credits, debts, transfers[..k], transfers[k], person)
      {
        assert LargestAt(rows, transfers[..k], transfers[k], person);
      }
    }
    if HeadsLargest(credits, debts, transfers) {
      forall k, person | 0 <= k < |transfers|
        ensures LargestAt(rows, transfers[..k], transfers[k], person)
      {
        assert HeadsAt(credits, debts, transfers[..k], transfers[k], person);
      }
    }
  }

  // ---------------------------------------------------------------- where it fails

  const UNEVEN := [Row("a", 10), Row("b", 9), Row("c", -8), Row("d", -6), Row("e", -5)]

  lemma SortedOfOrdered(queue: seq<Row>, names: NameOrder)
    requires TotalOrder(names) && forall i, j :: 0 <= i < j < |queue| ==> queue[i].cents > queue[j].cents
    ensures Sorted(queue, (left, right) => ByWeight(names, left, right)) == queue
  {
    var order := (left, right) => ByWeight(names, left, right);
    ByWeightIsTotal(names);
    SortedIsOrdered(queue, order);
    OneOrder(Sorted(queue, order), queue, order);
  }

  lemma SidesOfOneMore(rows: seq<Row>, row: Row)
    ensures Creditors(rows + [row]) == Creditors(rows) + if row.cents > 0 then [row] else []
    ensures Debtors(rows + [row]) == Debtors(rows) + if row.cents < 0 then [Row(row.person, -row.cents)] else []
  {
    assert (rows + [row])[..|rows|] == rows;
  }

  lemma UnevenSides(names: NameOrder)
    requires TotalOrder(names)
    ensures Credits(UNEVEN, names) == [Row("a", 10), Row("b", 9)]
    ensures Debts(UNEVEN, names) == [Row("c", 8), Row("d", 6), Row("e", 5)]
  {
    var one := [] + [UNEVEN[0]];
    var two := one + [UNEVEN[1]];
    var three := two + [UNEVEN[2]];
    var four := three + [UNEVEN[3]];
    assert UNEVEN == four + [UNEVEN[4]];
    SidesOfOneMore([], UNEVEN[0]);
    SidesOfOneMore(one, UNEVEN[1]);
    SidesOfOneMore(two, UNEVEN[2]);
    SidesOfOneMore(three, UNEVEN[3]);
    SidesOfOneMore(four, UNEVEN[4]);
    assert Creditors(UNEVEN) == [Row("a", 10), Row("b", 9)];
    assert Debtors(UNEVEN) == [Row("c", 8), Row("d", 6), Row("e", 5)];
    SortedOfOrdered([Row("a", 10), Row("b", 9)], names);
    SortedOfOrdered([Row("c", 8), Row("d", 6), Row("e", 5)], names);
  }

  /** The second payment settles the 2 still due to one person while another is owed 9. */
  lemma LargestIsPassedOver(names: NameOrder)
    requires TotalOrder(names)
    ensures var transfers := Settlement(UNEVEN, names);
            && TotalCents(UNEVEN) == 0 && OneRowEach(UNEVEN)
            && |transfers| > 1 && transfers[1] == Transfer("d", "a", 2)
            && After(UNEVEN, transfers[..1], "a") == 2 && After(UNEVEN, transfers[..1], "b") == 9
            && !LargestPaysLargest(UNEVEN, transfers)
  {
    var transfers := Settlement(UNEVEN, names);
    UnevenSides(names);
    var left, right := [Row("a", 2), Row("b", 9)], [Row("d", 6), Row("e", 5)];
    assert Less([Row("a", 10), Row("b", 9)], 8) == left;
    assert Less([Row("c", 8), Row("d", 6), Row("e", 5)], 8) == right;
    var rest := Payments(left, right);
    assert rest[0] == Transfer("d", "a", 2);
    assert transfers == [Transfer("c", "a", 8)] + rest;
    assert transfers[..1] == [Transfer("c", "a", 8)];
    UnevenTotals();
    assert !LargestAt(UNEVEN, transfers[..1], transfers[1], "b");
  }

  lemma UnevenNet(person: string)
    ensures TotalCents(UNEVEN) == 0
    ensures person == "a" ==> Net(UNEVEN, person) == 10
    ensures person == "b" ==> Net(UNEVEN, person) == 9
  {
    SumsOfOne(UNEVEN[4], person);
    SumsOfCons(UNEVEN[3], UNEVEN[4..], person);
    SumsOfCons(UNEVEN[2], UNEVEN[3..], person);
    SumsOfCons(UNEVEN[1], UNEVEN[2..], person);
    SumsOfCons(UNEVEN[0], UNEVEN[1..], person);
    assert UNEVEN[4..] == [UNEVEN[4]] && UNEVEN[3..] == [UNEVEN[3]] + UNEVEN[4..] && UNEVEN[2..] == [UNEVEN[2]] + UNEVEN[3..];
    assert UNEVEN[1..] == [UNEVEN[1]] + UNEVEN[2..] && UNEVEN == [UNEVEN[0]] + UNEVEN[1..];
  }

  lemma UnevenTotals()
    ensures TotalCents(UNEVEN) == 0
    ensures After(UNEVEN, [Transfer("c", "a", 8)], "a") == 2 && After(UNEVEN, [Transfer("c", "a", 8)], "b") == 9
  {
    UnevenNet("a");
    UnevenNet("b");
    var made := [Transfer("c", "a", 8)];
    assert made[1..] == [];
  }
}
