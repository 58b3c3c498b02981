/**
 * The ledger sample's arithmetic (examples/ledger/src/settle.js): shares that sum to the cent, balances that sum
 * to zero, and payments that bring every balance to zero in fewer payments than there are people out of balance.
 *
 * Cents are unbounded integers. The comparison of names is the caller's, any total order.
 */
module Settle {
  import opened Sorting
  import opened Wrappers

  datatype Entry = Entry(payer: string, cents: int, shared: seq<string>)

  datatype Row = Row(person: string, cents: int)

  datatype Transfer = Transfer(payer: string, payee: string, cents: int)

  type NameOrder = (string, string) -> bool

  // ---------------------------------------------------------------- sums

  function Sum(parts: seq<int>): int {
    if parts == [] then 0 else Sum(parts[..|parts| - 1]) + parts[|parts| - 1]
  }

  function TotalCents(rows: seq<Row>): int {
    if rows == [] then 0 else TotalCents(rows[..|rows| - 1]) + rows[|rows| - 1].cents
  }

  /** What all rows of one person come to. */
  function Net(rows: seq<Row>, person: string): int {
    if rows == [] then 0
    else
      var last := rows[|rows| - 1];
      Net(rows[..|rows| - 1], person) + if last.person == person then last.cents else 0
  }

  lemma {:induction false} SumsCompose(a: seq<Row>, b: seq<Row>, person: string)
    ensures TotalCents(a + b) == TotalCents(a) + TotalCents(b)
    ensures Net(a + b, person) == Net(a, person) + Net(b, person)
  {
    if b == [] {
      assert a + b == a;
    } else {
      SumsCompose(a, b[..|b| - 1], person);
      assert (a + b)[..|a + b| - 1] == a + b[..|b| - 1];
    }
  }

  lemma SumsOfOne(row: Row, person: string)
    ensures TotalCents([row]) == row.cents && Net([row], person) == if row.person == person then row.cents else 0
  {
    var rows := [row];
    assert rows[..|rows| - 1] == [];
  }

  // ---------------------------------------------------------------- shares

  function SplitShares(cents: int, count: nat): (shares: seq<int>)
    ensures |shares| == count
    ensures forall i, j :: 0 <= i <= j < count ==> shares[j] <= shares[i] <= shares[j] + 1
  {
    if count == 0 then []
    else
      var each := cents / count;
      var remainder := cents - each * count;
      seq(count, index => each + if index < remainder then 1 else 0)
  }

  lemma {:induction false} SumOfSteps(parts: seq<int>, each: int, remainder: nat)
    requires forall i :: 0 <= i < |parts| ==> parts[i] == each + if i < remainder then 1 else 0
    ensures Sum(parts) == each * |parts| + if |parts| <= remainder then |parts| else remainder
  {
    if parts != [] {
      SumOfSteps(parts[..|parts| - 1], each, remainder);
      assert each * (|parts| - 1) + each == each * |parts|;
    }
  }

  /** No cent is lost or made: the parts sum back to the amount whenever anybody shares it. */
  lemma SharesAreExact(cents: int, count: nat)
    ensures Sum(SplitShares(cents, count)) == if count == 0 then 0 else cents
  {
    if count > 0 {
      var each := cents / count;
      var remainder := cents % count;
      assert cents == each * count + remainder && 0 <= remainder < count;
      SumOfSteps(SplitShares(cents, count), each, remainder);
    }
  }

  // ---------------------------------------------------------------- balances

  /** Every change one entry makes to anybody's balance, in the order it makes them. */
  function Bumps(entry: Entry): seq<Row> {
    [Row(entry.payer, entry.cents)] + Debits(entry, |entry.shared|)
  }

  function Debits(entry: Entry, count: nat): (rows: seq<Row>)
    requires count <= |entry.shared|
    ensures |rows| == count
  {
    var shares := SplitShares(entry.cents, |entry.shared|);
    seq(count, index requires 0 <= index < count => Row(entry.shared[index], -shares[index]))
  }

  function AllBumps(entries: seq<Entry>): seq<Row> {
    if entries == [] then [] else AllBumps(entries[..|entries| - 1]) + Bumps(entries[|entries| - 1])
  }

  /** What a person has paid, less what they had a share in. */
  function Position(entries: seq<Entry>, person: string): int {
    Net(AllBumps(entries), person)
  }

  /** Amounts nobody was named to share. */
  function Unshared(entries: seq<Entry>): int {
    if entries == [] then 0
    else
      var last := entries[|entries| - 1];
      Unshared(entries[..|entries| - 1]) + if last.shared == [] then last.cents else 0
  }

  lemma {:induction false} DebitsTotal(rows: seq<Row>, parts: seq<int>)
    requires |rows| == |parts| && forall i :: 0 <= i < |rows| ==> rows[i].cents == -parts[i]
    ensures TotalCents(rows) == -Sum(parts)
  {
    if rows != [] {
      DebitsTotal(rows[..|rows| - 1], parts[..|parts| - 1]);
    }
  }

  lemma {:induction false} BumpsTotal(entries: seq<Entry>)
    ensures TotalCents(AllBumps(entries)) == Unshared(entries)
  {
    if entries != [] {
      var last := entries[|entries| - 1];
      BumpsTotal(entries[..|entries| - 1]);
      SumsCompose(AllBumps(entries[..|entries| - 1]), Bumps(last), "");
      SumsCompose([Row(last.payer, last.cents)], Debits(last, |last.shared|), "");
      SumsOfOne(Row(last.payer, last.cents), "");
      DebitsTotal(Debits(last, |last.shared|), SplitShares(last.cents, |last.shared|));
      SharesAreExact(last.cents, |last.shared|);
    }
  }

  predicate OneRowEach(rows: seq<Row>) {
    forall i, j :: 0 <= i < j < |rows| ==> rows[i].person != rows[j].person
  }

  /** The table the bumps add up in: one row a person, in order of first mention. */
  ghost predicate Tallies(rows: seq<Row>, bumps: seq<Row>) {
    && OneRowEach(rows)
    && (forall i :: 0 <= i < |rows| ==> rows[i].cents == Net(bumps, rows[i].person))
    && (forall b :: b in bumps ==> exists i :: 0 <= i < |rows| && rows[i].person == b.person)
    && TotalCents(rows) == TotalCents(bumps)
  }

  lemma {:induction false} TotalOfUpdate(rows: seq<Row>, at: nat, row: Row)
    requires at < |rows|
    ensures TotalCents(rows[at := row]) == TotalCents(rows) - rows[at].cents + row.cents
  {
    var n := |rows| - 1;
    if at == n {
      assert rows[at := row][..n] == rows[..n];
    } else {
      TotalOfUpdate(rows[..n], at, row);
      assert rows[at := row][..n] == rows[..n][at := row];
    }
  }

  lemma {:induction false} NetOfUnnamed(rows: seq<Row>, person: string)
    requires forall r :: r in rows ==> r.person != person
    ensures Net(rows, person) == 0
  {
    if rows != [] {
      NetOfUnnamed(rows[..|rows| - 1], person);
    }
  }

  lemma BumpSums(bumps: seq<Row>, bump: Row)
    ensures TotalCents(bumps + [bump]) == TotalCents(bumps) + bump.cents
    ensures forall person :: Net(bumps + [bump], person) == Net(bumps, person) + if bump.person == person then bump.cents else 0
  {
    forall person ensures Net(bumps + [bump], person) == Net(bumps, person) + if bump.person == person then bump.cents else 0 {
      SumsCompose(bumps, [bump], person);
      SumsOfOne(bump, person);
    }
    SumsCompose(bumps, [bump], "");
    SumsOfOne(bump, "");
  }

  lemma TallyMore(rows: seq<Row>, bumps: seq<Row>, bump: Row, at: nat)
    requires Tallies(rows, bumps) && at < |rows| && rows[at].person == bump.person
    ensures Tallies(rows[at := Row(bump.person, rows[at].cents + bump.cents)], bumps + [bump])
  {
    var next := rows[at := Row(bump.person, rows[at].cents + bump.cents)];
    BumpSums(bumps, bump);
    TotalOfUpdate(rows, at, next[at]);
    TalliesEverybody(rows, next, bumps, bump, at);
  }

  lemma TallyNew(rows: seq<Row>, bumps: seq<Row>, bump: Row)
    requires Tallies(rows, bumps) && forall i :: 0 <= i < |rows| ==> rows[i].person != bump.person
    ensures Tallies(rows + [bump], bumps + [bump])
  {
    BumpSums(bumps, bump);
    BumpSums(rows, bump);
    NetOfUnnamed(bumps, bump.person);
    TalliesEverybody(rows, rows + [bump], bumps, bump, |rows|);
  }

  lemma TalliesEverybody(rows: seq<Row>, next: seq<Row>, bumps: seq<Row>, bump: Row, at: nat)
    requires |rows| <= |next| && at < |next| && next[at].person == bump.person
    requires forall i :: 0 <= i < |rows| ==> next[i].person == rows[i].person
    requires forall b :: b in bumps ==> exists i :: 0 <= i < |rows| && rows[i].person == b.person
    ensures forall b :: b in bumps + [bump] ==> exists i :: 0 <= i < |next| && next[i].person == b.person
  {
    forall b | b in bumps + [bump] ensures exists i :: 0 <= i < |next| && next[i].person == b.person {
      if b in bumps {
        var i :| 0 <= i < |rows| && rows[i].person == b.person;
        assert next[i].person == b.person;
      }
    }
  }

  method Bump(rows: seq<Row>, person: string, cents: int, ghost bumps: seq<Row>) returns (next: seq<Row>)
    requires Tallies(rows, bumps)
    ensures Tallies(next, bumps + [Row(person, cents)])
  {
    var at := 0;
    while at < |rows| && rows[at].person != person
      invariant 0 <= at <= |rows| && forall i :: 0 <= i < at ==> rows[i].person != person
    {
      at := at + 1;
    }
    if at < |rows| {
      TallyMore(rows, bumps, Row(person, cents), at);
      next := rows[at := Row(person, rows[at].cents + cents)];
    } else {
      TallyNew(rows, bumps, Row(person, cents));
      next := rows + [Row(person, cents)];
    }
  }

  predicate ByName(names: NameOrder, left: Row, right: Row) {
    if left.person == right.person then left.cents <= right.cents else names(left.person, right.person)
  }

  lemma ByNameIsTotal(names: NameOrder)
    requires TotalOrder(names)
    ensures TotalOrder((left, right) => ByName(names, left, right))
  {
  }

  lemma SumsOfCons(row: Row, rows: seq<Row>, person: string)
    ensures TotalCents([row] + rows) == row.cents + TotalCents(rows)
    ensures Net([row] + rows, person) == Net(rows, person) + if row.person == person then row.cents else 0
  {
    SumsCompose([row], rows, person);
    SumsOfOne(row, person);
  }

  lemma {:induction false} SumsOfInserted(rows: seq<Row>, row: Row, leq: (Row, Row) -> bool, person: string)
    ensures TotalCents(Inserted(rows, row, leq)) == TotalCents(rows) + row.cents
    ensures Net(Inserted(rows, row, leq), person) == Net(rows, person) + if row.person == person then row.cents else 0
  {
    if rows == [] {
      SumsOfOne(row, person);
    } else if leq(row, rows[0]) {
      SumsOfCons(row, rows, person);
    } else {
      SumsOfInserted(rows[1..], row, leq, person);
      assert rows == [rows[0]] + rows[1..];
      SumsOfCons(rows[0], rows[1..], person);
      SumsOfCons(rows[0], Inserted(rows[1..], row, leq), person);
    }
  }

  /** Sorting rows changes neither their total nor anybody's. */
  lemma {:induction false} SumsOfSorted(rows: seq<Row>, leq: (Row, Row) -> bool, person: string)
    ensures TotalCents(Sorted(rows, leq)) == TotalCents(rows) && Net(Sorted(rows, leq), person) == Net(rows, person)
  {
    if rows != [] {
      var front, last := rows[..|rows| - 1], rows[|rows| - 1];
      SumsOfSorted(front, leq, person);
      SumsOfInserted(Sorted(front, leq), last, leq, person);
    }
  }

  lemma {:induction false} DistinctOnce(rows: seq<Row>, row: Row)
    requires OneRowEach(rows)
    ensures multiset(rows)[row] <= 1
  {
    if rows != [] {
      var front, last := rows[..|rows| - 1], rows[|rows| - 1];
      DistinctOnce(front, row);
      assert rows == front + [last];
      assert row == last ==> row !in front;
    }
  }

  lemma SameRowsDistinct(a: seq<Row>, b: seq<Row>)
    requires OneRowEach(a) && multiset(a) == multiset(b)
    ensures OneRowEach(b)
  {
    forall i, j | 0 <= i < j < |b|
      ensures b[i].person != b[j].person
    {
      assert b[i] in multiset(a) && b[j] in multiset(a);
      if b[i] == b[j] {
        TwiceIsTwo(b, i, j);
        DistinctOnce(a, b[i]);
      }
    }
  }

  /** In a table of one row a person, that row is the person's whole balance. */
  lemma {:induction false} NetOfNamed(rows: seq<Row>, row: Row)
    requires OneRowEach(rows) && row in rows
    ensures Net(rows, row.person) == row.cents
  {
    var front, last := rows[..|rows| - 1], rows[|rows| - 1];
    if row == last {
      NetOfUnnamed(front, row.person);
    } else {
      NetOfNamed(front, row);
    }
  }

  lemma TallyIsNet(rows: seq<Row>, bumps: seq<Row>, person: string)
    requires Tallies(rows, bumps)
    ensures Net(rows, person) == Net(bumps, person)
  {
    if exists i :: 0 <= i < |rows| && rows[i].person == person {
      var i :| 0 <= i < |rows| && rows[i].person == person;
      NetOfNamed(rows, rows[i]);
    } else {
      NetOfUnnamed(rows, person);
      NetOfUnnamed(bumps, person);
    }
  }

  /** One row for everybody mentioned, in order of name, each holding exactly that person's position. */
  method Balances(entries: seq<Entry>, names: NameOrder) returns (rows: seq<Row>)
    requires TotalOrder(names)
    ensures OneRowEach(rows) && Ordered(rows, (left, right) => ByName(names, left, right))
    ensures forall person :: Net(rows, person) == Position(entries, person)
    ensures forall b :: b in AllBumps(entries) ==> exists i :: 0 <= i < |rows| && rows[i].person == b.person
    ensures TotalCents(rows) == Unshared(entries)
  {
    var net: seq<Row> := [];
    for n := 0 to |entries|
      invariant Tallies(net, AllBumps(entries[..n]))
    {
      net := BumpAll(net, entries[n], AllBumps(entries[..n]));
      assert entries[..n + 1][..n] == entries[..n];
    }
    assert entries[..|entries|] == entries;
    BumpsTotal(entries);
    ByNameIsTotal(names);
    var order := (left, right) => ByName(names, left, right);
    rows := Sort(net, order);
    SortedTally(net, AllBumps(entries), order);
  }

  lemma SortedTally(net: seq<Row>, bumps: seq<Row>, leq: (Row, Row) -> bool)
    requires Tallies(net, bumps) && TotalOrder(leq)
    ensures var rows := Sorted(net, leq);
            && OneRowEach(rows) && Ordered(rows, leq) && TotalCents(rows) == TotalCents(bumps)
            && (forall person :: Net(rows, person) == Net(bumps, person))
            && (forall b :: b in bumps ==> exists i :: 0 <= i < |rows| && rows[i].person == b.person)
  {
    var rows := Sorted(net, leq);
    SortedIsOrdered(net, leq);
    SameRowsDistinct(net, rows);
    forall person ensures Net(rows, person) == Net(bumps, person) && TotalCents(rows) == TotalCents(net) {
      SumsOfSorted(net, leq, person);
      TallyIsNet(net, bumps, person);
    }
    SumsOfSorted(net, leq, "");
    forall b | b in bumps ensures exists i :: 0 <= i < |rows| && rows[i].person == b.person {
      var i :| 0 <= i < |net| && net[i].person == b.person;
      assert net[i] in multiset(rows);
      var k :| 0 <= k < |rows| && rows[k] == net[i];
    }
  }

  lemma DebitsGrow(paid: seq<Row>, entry: Entry, index: nat)
    requires index < |entry.shared|
    ensures var share := SplitShares(entry.cents, |entry.shared|)[index];
            paid + Debits(entry, index + 1) == (paid + Debits(entry, index)) + [Row(entry.shared[index], -share)]
  {
    var share := SplitShares(entry.cents, |entry.shared|)[index];
    assert Debits(entry, index + 1) == Debits(entry, index) + [Row(entry.shared[index], -share)];
  }

  method BumpAll(net: seq<Row>, entry: Entry, ghost bumps: seq<Row>) returns (next: seq<Row>)
    requires Tallies(net, bumps)
    ensures Tallies(next, bumps + Bumps(entry))
  {
    ghost var paid := bumps + [Row(entry.payer, entry.cents)];
    next := Bump(net, entry.payer, entry.cents, bumps);
    assert paid + Debits(entry, 0) == paid;
    next := BumpDebits(next, entry, paid);
    Associate(bumps, [Row(entry.payer, entry.cents)], Debits(entry, |entry.shared|));
  }

  method BumpDebits(net: seq<Row>, entry: Entry, ghost paid: seq<Row>) returns (next: seq<Row>)
    requires Tallies(net, paid + Debits(entry, 0))
    ensures Tallies(next, paid + Debits(entry, |entry.shared|))
  {
    next := net;
    var shares := SplitShares(entry.cents, |entry.shared|);
    for index := 0 to |entry.shared|
      invariant Tallies(next, paid + Debits(entry, index))
    {
      DebitsGrow(paid, entry, index);
      next := Bump(next, entry.shared[index], -shares[index], paid + Debits(entry, index));
    }
  }

  // ---------------------------------------------------------------- payments

  function Creditors(rows: seq<Row>): seq<Row> {
    if rows == [] then []
    else
      var last := rows[|rows| - 1];
      var front := Creditors(rows[..|rows| - 1]);
      if last.cents > 0 then front + [last] else front
  }

  /** The debtors, each with the size of the debt. */
  function Debtors(rows: seq<Row>): seq<Row> {
    if rows == [] then []
    else
      var last := rows[|rows| - 1];
      var front := Debtors(rows[..|rows| - 1]);
      if last.cents < 0 then front + [Row(last.person, -last.cents)] else front
  }

  predicate ByWeight(names: NameOrder, left: Row, right: Row) {
    left.cents > right.cents || (left.cents == right.cents && names(left.person, right.person))
  }

  lemma ByWeightIsTotal(names: NameOrder)
    requires TotalOrder(names)
    ensures TotalOrder((left, right) => ByWeight(names, left, right))
  {
  }

  function Min(a: int, b: int): int {
    if a <= b then a else b
  }

  /** What is left of a queue once its head was paid `amount`. */
  function Less(queue: seq<Row>, amount: int): (rest: seq<Row>)
    requires queue != []
    ensures |rest| <= |queue| && (queue[0].cents == amount ==> |rest| == |queue| - 1)
  {
    if queue[0].cents == amount then queue[1..] else queue[0 := queue[0].(cents := queue[0].cents - amount)]
  }

  /** The head of one queue pays the head of the other until either is done with. */
  function Payments(creditors: seq<Row>, debtors: seq<Row>): seq<Transfer>
    decreases |creditors| + |debtors|
  {
    if creditors == [] || debtors == [] then []
    else
      var amount := Min(creditors[0].cents, debtors[0].cents);
      [Transfer(debtors[0].person, creditors[0].person, amount)] + Payments(Less(creditors, amount), Less(debtors, amount))
  }

  function Settlement(rows: seq<Row>, names: NameOrder): seq<Transfer> {
    var order := (left, right) => ByWeight(names, left, right);
    Payments(Sorted(Creditors(rows), order), Sorted(Debtors(rows), order))
  }

  method Settle(rows: seq<Row>, names: NameOrder) returns (transfers: seq<Transfer>)
    ensures transfers == Settlement(rows, names)
  {
    var order := (left, right) => ByWeight(names, left, right);
    var creditors := Sort(Creditors(rows), order);
    var debtors := Sort(Debtors(rows), order);
    transfers := PayOff(creditors, debtors);
  }

  method PayOff(owed: seq<Row>, owing: seq<Row>) returns (transfers: seq<Transfer>)
    ensures transfers == Payments(owed, owing)
  {
    var creditors, debtors := owed, owing;
    transfers := [];
    var credit, debt := 0, 0;
    assert creditors[0..] == owed && debtors[0..] == owing;
    while credit < |creditors| && debt < |debtors|
      invariant 0 <= credit <= |creditors| && 0 <= debt <= |debtors|
      invariant transfers + Payments(creditors[credit..], debtors[debt..]) == Payments(owed, owing)
      decreases |creditors| - credit + |debtors| - debt
    {
      ghost var left, right := creditors[credit..], debtors[debt..];
      var amount := Min(creditors[credit].cents, debtors[debt].cents);
      var transfer := Transfer(debtors[debt].person, creditors[credit].person, amount);
      Associate(transfers, [transfer], Payments(Less(left, amount), Less(right, amount)));
      transfers := transfers + [transfer];
      creditors, credit := Paid(creditors, credit, amount);
      debtors, debt := Paid(debtors, debt, amount);
    }
  }

  method Paid(queue: seq<Row>, at: nat, amount: int) returns (next: seq<Row>, after: nat)
    requires at < |queue|
    ensures |next| == |queue| && after <= |next| && next[after..] == Less(queue[at..], amount)
    ensures after == if queue[at].cents == amount then at + 1 else at
  {
    next := queue[at := queue[at].(cents := queue[at].cents - amount)];
    after := if next[at].cents == 0 then at + 1 else at;
  }

  predicate AllOwed(rows: seq<Row>) {
    forall i :: 0 <= i < |rows| ==> rows[i].cents > 0
  }

  function PaidBy(transfers: seq<Transfer>, person: string): int {
    if transfers == [] then 0
    else (if transfers[0].payer == person then transfers[0].cents else 0) + PaidBy(transfers[1..], person)
  }

  function PaidTo(transfers: seq<Transfer>, person: string): int {
    if transfers == [] then 0
    else (if transfers[0].payee == person then transfers[0].cents else 0) + PaidTo(transfers[1..], person)
  }

  function Moved(transfers: seq<Transfer>): int {
    if transfers == [] then 0 else transfers[0].cents + Moved(transfers[1..])
  }

  predicate Named(rows: seq<Row>, person: string) {
    exists i :: 0 <= i < |rows| && rows[i].person == person
  }

  /** Paying the head of a queue takes the amount off the head's person and off the total, and nobody else. */
  lemma LessTakes(queue: seq<Row>, amount: int, person: string)
    requires queue != []
    ensures TotalCents(Less(queue, amount)) == TotalCents(queue) - amount
    ensures Net(Less(queue, amount), person) == Net(queue, person) - if queue[0].person == person then amount else 0
  {
    var rest := queue[1..];
    var head := queue[0].(cents := queue[0].cents - amount);
    assert queue == [queue[0]] + rest;
    SumsOfCons(queue[0], rest, person);
    SumsOfCons(head, rest, person);
    assert queue[0 := head] == [head] + rest;
  }

  lemma LessStaysOwed(queue: seq<Row>, amount: int)
    requires queue != [] && AllOwed(queue) && amount <= queue[0].cents
    ensures AllOwed(Less(queue, amount))
    ensures forall person :: Named(Less(queue, amount), person) ==> Named(queue, person)
  {
    var rest := Less(queue, amount);
    forall person | Named(rest, person)
      ensures Named(queue, person)
    {
      var i :| 0 <= i < |rest| && rest[i].person == person;
      assert rest[i].person == queue[if |rest| == |queue| then i else i + 1].person;
    }
  }

  lemma {:induction false} OwedIsPositive(rows: seq<Row>)
    requires AllOwed(rows)
    ensures TotalCents(rows) >= 0 && (rows != [] ==> TotalCents(rows) > 0)
  {
    if rows != [] {
      OwedIsPositive(rows[..|rows| - 1]);
    }
  }

  predicate Proper(transfer: Transfer, creditors: seq<Row>, debtors: seq<Row>) {
    transfer.cents > 0 && Named(debtors, transfer.payer) && Named(creditors, transfer.payee)
  }

  lemma {:induction false} PaymentsAreProper(creditors: seq<Row>, debtors: seq<Row>)
    requires AllOwed(creditors) && AllOwed(debtors)
    ensures forall t :: t in Payments(creditors, debtors) ==> Proper(t, creditors, debtors)
    decreases |creditors| + |debtors|
  {
    if creditors != [] && debtors != [] {
      var amount := Min(creditors[0].cents, debtors[0].cents);
      LessStaysOwed(creditors, amount);
      LessStaysOwed(debtors, amount);
      PaymentsAreProper(Less(creditors, amount), Less(debtors, amount));
      assert Named(creditors, creditors[0].person) && Named(debtors, debtors[0].person);
    }
  }

  /** Each queue gives up exactly what is moved; at the end one of them is empty. */
  lemma {:induction false} PaymentsMove(creditors: seq<Row>, debtors: seq<Row>)
    requires AllOwed(creditors) && AllOwed(debtors)
    ensures Moved(Payments(creditors, debtors)) == Min(TotalCents(creditors), TotalCents(debtors))
    decreases |creditors| + |debtors|
  {
    OwedIsPositive(creditors);
    OwedIsPositive(debtors);
    if creditors != [] && debtors != [] {
      var amount := Min(creditors[0].cents, debtors[0].cents);
      LessStaysOwed(creditors, amount);
      LessStaysOwed(debtors, amount);
      LessTakes(creditors, amount, "");
      LessTakes(debtors, amount, "");
      PaymentsMove(Less(creditors, amount), Less(debtors, amount));
    }
  }

  /** Queues of one total pay each other off, person by person, the last payment finishing both. */
  lemma {:induction false} PaymentsClear(creditors: seq<Row>, debtors: seq<Row>, person: string)
    requires AllOwed(creditors) && AllOwed(debtors) && TotalCents(creditors) == TotalCents(debtors)
    ensures PaidTo(Payments(creditors, debtors), person) == Net(creditors, person)
    ensures PaidBy(Payments(creditors, debtors), person) == Net(debtors, person)
    ensures |Payments(creditors, debtors)| <= if creditors == [] then 0 else |creditors| + |debtors| - 1
    decreases |creditors| + |debtors|
  {
    OwedIsPositive(creditors);
    OwedIsPositive(debtors);
    if creditors != [] && debtors != [] {
      var amount := Min(creditors[0].cents, debtors[0].cents);
      LessStaysOwed(creditors, amount);
      LessStaysOwed(debtors, amount);
      LessTakes(creditors, amount, person);
      LessTakes(debtors, amount, person);
      PaymentsClear(Less(creditors, amount), Less(debtors, amount), person);
    }
  }

  // ---------------------------------------------------------------- what settling promises

  function OutOfBalance(rows: seq<Row>): nat {
    if rows == [] then 0
    else OutOfBalance(rows[..|rows| - 1]) + if rows[|rows| - 1].cents != 0 then 1 else 0
  }

  /** Where a person stands once the transfers are made. */
  function After(rows: seq<Row>, transfers: seq<Transfer>, person: string): int {
    Net(rows, person) + PaidBy(transfers, person) - PaidTo(transfers, person)
  }

  lemma {:induction false} SplitBySign(rows: seq<Row>, person: string)
    ensures AllOwed(Creditors(rows)) && AllOwed(Debtors(rows))
    ensures TotalCents(rows) == TotalCents(Creditors(rows)) - TotalCents(Debtors(rows))
    ensures Net(rows, person) == Net(Creditors(rows), person) - Net(Debtors(rows), person)
    ensures |Creditors(rows)| + |Debtors(rows)| == OutOfBalance(rows)
  {
    if rows != [] {
      var front, last := rows[..|rows| - 1], rows[|rows| - 1];
      SplitBySign(front, person);
      if last.cents > 0 {
        SumsCompose(Creditors(front), [last], person);
        SumsOfOne(last, person);
      } else if last.cents < 0 {
        var debt := Row(last.person, -last.cents);
        SumsCompose(Debtors(front), [debt], person);
        SumsOfOne(debt, person);
      }
    }
  }

  lemma {:induction false} SideOf(rows: seq<Row>)
    ensures forall r :: r in Creditors(rows) ==> r in rows && r.cents > 0
    ensures forall r :: r in Debtors(rows) ==> Row(r.person, -r.cents) in rows && r.cents > 0
  {
    if rows != [] {
      SideOf(rows[..|rows| - 1]);
    }
  }

  lemma {:induction false} QueueSums(queue: seq<Row>, names: NameOrder, person: string)
    requires TotalOrder(names) && AllOwed(queue)
    ensures var order := (left, right) => ByWeight(names, left, right);
            var sorted := Sorted(queue, order);
            && Ordered(sorted, order) && |sorted| == |queue| && AllOwed(sorted)
            && TotalCents(sorted) == TotalCents(queue) && Net(sorted, person) == Net(queue, person)
            && forall r :: r in sorted ==> r in queue
  {
    var order := (left, right) => ByWeight(names, left, right);
    var sorted := Sorted(queue, order);
    ByWeightIsTotal(names);
    SortedIsOrdered(queue, order);
    SumsOfSorted(queue, order, person);
    assert |multiset(sorted)| == |multiset(queue)|;
    forall r | r in sorted
      ensures r in queue
    {
      assert r in multiset(queue);
    }
    forall i | 0 <= i < |sorted|
      ensures sorted[i].cents > 0
    {
      assert sorted[i] in queue;
    }
  }

  predicate Owes(rows: seq<Row>, person: string) {
    exists i :: 0 <= i < |rows| && rows[i].person == person && rows[i].cents < 0
  }

  predicate IsOwed(rows: seq<Row>, person: string) {
    exists i :: 0 <= i < |rows| && rows[i].person == person && rows[i].cents > 0
  }

  lemma DebtorsOwe(rows: seq<Row>, row: Row)
    requires row in Debtors(rows)
    ensures Owes(rows, row.person)
  {
    SideOf(rows);
    var i :| 0 <= i < |rows| && rows[i] == Row(row.person, -row.cents);
  }

  lemma CreditorsAreOwed(rows: seq<Row>, row: Row)
    requires row in Creditors(rows)
    ensures IsOwed(rows, row.person)
  {
    SideOf(rows);
    var i :| 0 <= i < |rows| && rows[i] == row;
  }

  lemma NamedInQueue(queue: seq<Row>, names: NameOrder, person: string) returns (row: Row)
    requires TotalOrder(names) && AllOwed(queue) && Named(Sorted(queue, (left, right) => ByWeight(names, left, right)), person)
    ensures row in queue && row.person == person
  {
    QueueSums(queue, names, person);
    var sorted := Sorted(queue, (left, right) => ByWeight(names, left, right));
    var i :| 0 <= i < |sorted| && sorted[i].person == person;
    row := sorted[i];
  }

  /** Every payment is of something, from somebody who owes to somebody who is owed. */
  lemma EveryPaymentIsDue(rows: seq<Row>, names: NameOrder, t: Transfer)
    requires TotalOrder(names) && t in Settlement(rows, names)
    ensures t.cents > 0 && Owes(rows, t.payer) && IsOwed(rows, t.payee)
  {
    var order := (left, right) => ByWeight(names, left, right);
    var creditors, debtors := Sorted(Creditors(rows), order), Sorted(Debtors(rows), order);
    SplitBySign(rows, "");
    QueueSums(Creditors(rows), names, "");
    QueueSums(Debtors(rows), names, "");
    PaymentsAreProper(creditors, debtors);
    assert Proper(t, creditors, debtors);
    var debtor := NamedInQueue(Debtors(rows), names, t.payer);
    var creditor := NamedInQueue(Creditors(rows), names, t.payee);
    DebtorsOwe(rows, debtor);
    CreditorsAreOwed(rows, creditor);
  }

  /** Rows that sum to zero are settled to the cent, in fewer payments than there are people out of balance. */
  lemma ZeroSumSettles(rows: seq<Row>, names: NameOrder, person: string)
    requires TotalOrder(names) && TotalCents(rows) == 0
    ensures After(rows, Settlement(rows, names), person) == 0
    ensures |Settlement(rows, names)| <= if OutOfBalance(rows) == 0 then 0 else OutOfBalance(rows) - 1
  {
    var order := (left, right) => ByWeight(names, left, right);
    SplitBySign(rows, person);
    QueueSums(Creditors(rows), names, person);
    QueueSums(Debtors(rows), names, person);
    PaymentsClear(Sorted(Creditors(rows), order), Sorted(Debtors(rows), order), person);
  }

  function Without(rows: seq<Row>, person: string): (rest: seq<Row>)
    ensures |rest| <= |rows| && forall r :: r in rest ==> r.person != person
  {
    if rows == [] then []
    else
      var last := rows[|rows| - 1];
      var front := Without(rows[..|rows| - 1], person);
      if last.person == person then front else front + [last]
  }

  lemma {:induction false} WithoutSums(rows: seq<Row>, person: string, other: string)
    ensures TotalCents(rows) == TotalCents(Without(rows, person)) + Net(rows, person)
    ensures Net(Without(rows, person), other) == if other == person then 0 else Net(rows, other)
  {
    if rows != [] {
      var front, last := rows[..|rows| - 1], rows[|rows| - 1];
      WithoutSums(front, person, other);
      if last.person != person {
        SumsCompose(Without(front, person), [last], other);
        SumsOfOne(last, other);
      }
    }
  }

  /** If nobody is out of balance, the total is zero. */
  lemma {:induction false} NobodyOutMeansZero(rows: seq<Row>)
    requires forall person :: Net(rows, person) == 0
    ensures TotalCents(rows) == 0
    decreases |rows|
  {
    if rows != [] {
      var person := rows[|rows| - 1].person;
      var rest := Without(rows, person);
      forall other ensures Net(rest, other) == 0 {
        WithoutSums(rows, person, other);
      }
      WithoutSums(rows, person, person);
      NobodyOutMeansZero(rest);
    }
  }

  /** The transfers as changes to the rows. */
  function Made(transfers: seq<Transfer>): seq<Row> {
    if transfers == [] then []
    else [Row(transfers[0].payer, transfers[0].cents)] + ([Row(transfers[0].payee, -transfers[0].cents)] + Made(transfers[1..]))
  }

  lemma {:induction false} MadeSums(transfers: seq<Transfer>, person: string)
    ensures TotalCents(Made(transfers)) == 0
    ensures Net(Made(transfers), person) == PaidBy(transfers, person) - PaidTo(transfers, person)
  {
    if transfers != [] {
      var t, rest := transfers[0], Made(transfers[1..]);
      MadeSums(transfers[1..], person);
      SumsOfCons(Row(t.payee, -t.cents), rest, person);
      SumsOfCons(Row(t.payer, t.cents), [Row(t.payee, -t.cents)] + rest, person);
    }
  }

  ghost predicate EverybodySquare(rows: seq<Row>, transfers: seq<Transfer>) {
    forall person :: After(rows, transfers, person) == 0
  }

  /** Settling leaves everybody square exactly when the rows sum to zero: the check the command makes first. */
  lemma SettlesExactlyZeroSums(rows: seq<Row>, names: NameOrder)
    requires TotalOrder(names)
    ensures EverybodySquare(rows, Settlement(rows, names)) <==> TotalCents(rows) == 0
  {
    var transfers := Settlement(rows, names);
    if TotalCents(rows) == 0 {
      forall person ensures After(rows, transfers, person) == 0 {
        ZeroSumSettles(rows, names, person);
      }
    } else if EverybodySquare(rows, transfers) {
      forall person ensures Net(rows + Made(transfers), person) == 0 {
        SumsCompose(rows, Made(transfers), person);
        MadeSums(transfers, person);
        assert After(rows, transfers, person) == 0;
      }
      NobodyOutMeansZero(rows + Made(transfers));
      SumsCompose(rows, Made(transfers), "");
      MadeSums(transfers, "");
    }
  }

  lemma {:induction false} CreditorsForgetOrder(rows: seq<Row>, row: Row)
    ensures multiset(Creditors(rows))[row] == if row.cents > 0 then multiset(rows)[row] else 0
  {
    if rows != [] {
      var front, last := rows[..|rows| - 1], rows[|rows| - 1];
      CreditorsForgetOrder(front, row);
      assert rows == front + [last];
    }
  }

  lemma {:induction false} DebtorsForgetOrder(rows: seq<Row>, row: Row)
    ensures multiset(Debtors(rows))[row] == if row.cents > 0 then multiset(rows)[Row(row.person, -row.cents)] else 0
  {
    if rows != [] {
      var front, last := rows[..|rows| - 1], rows[|rows| - 1];
      DebtorsForgetOrder(front, row);
      assert rows == front + [last];
      assert last == Row(last.person, last.cents) && row == Row(row.person, row.cents);
    }
  }

  /** The same rows in any order settle the same way, payment for payment. */
  lemma SettlementForgetsOrder(a: seq<Row>, b: seq<Row>, names: NameOrder)
    requires TotalOrder(names) && multiset(a) == multiset(b)
    ensures Settlement(a, names) == Settlement(b, names)
  {
    var order := (left, right) => ByWeight(names, left, right);
    ByWeightIsTotal(names);
    forall row ensures multiset(Creditors(a))[row] == multiset(Creditors(b))[row] && multiset(Debtors(a))[row] == multiset(Debtors(b))[row] {
      CreditorsForgetOrder(a, row);
      CreditorsForgetOrder(b, row);
      DebtorsForgetOrder(a, row);
      DebtorsForgetOrder(b, row);
    }
    assert multiset(Creditors(a)) == multiset(Creditors(b)) && multiset(Debtors(a)) == multiset(Debtors(b));
    SortedForgetsOrder(Creditors(a), Creditors(b), order);
    SortedForgetsOrder(Debtors(a), Debtors(b), order);
  }

  lemma {:induction false} SharedLeavesNothing(entries: seq<Entry>)
    requires forall entry :: entry in entries ==> entry.shared != []
    ensures Unshared(entries) == 0
  {
    if entries != [] {
      SharedLeavesNothing(entries[..|entries| - 1]);
    }
  }

  /** From ledger to payments: every entry shared by somebody, everybody ends having paid exactly what they had a share in. */
  method SettleLedger(entries: seq<Entry>, names: NameOrder) returns (rows: seq<Row>, transfers: seq<Transfer>)
    requires TotalOrder(names) && forall entry :: entry in entries ==> entry.shared != []
    ensures forall person :: Position(entries, person) + PaidBy(transfers, person) - PaidTo(transfers, person) == 0
    ensures OneRowEach(rows) && |transfers| <= if OutOfBalance(rows) == 0 then 0 else OutOfBalance(rows) - 1
  {
    rows := Balances(entries, names);
    transfers := Settle(rows, names);
    SharedLeavesNothing(entries);
    forall person ensures Position(entries, person) + PaidBy(transfers, person) - PaidTo(transfers, person) == 0 {
      ZeroSumSettles(rows, names, person);
      assert Net(rows, person) == Position(entries, person);
    }
    ZeroSumSettles(rows, names, "");
  }
}
