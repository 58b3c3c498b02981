/**
 * What a balance is made of (examples/ledger/src/settle.js): every entry gives its payer the whole amount and takes from
 * each who shared it an even part, odd cents from the front; and who is settled with first.
 */
module SettleLaws {
  import opened Settle
  import opened Sorting
  import opened Wrappers

  /** Everything a person laid out. */
  function LaidOut(entries: seq<Entry>, person: string): int {
    if entries == [] then 0
    else (if entries[0].payer == person then entries[0].cents else 0) + LaidOut(entries[1..], person)
  }

  /** The `k`th of `n` even parts, the odd cents going to the front: the amount and what is missing to the next `n`, over `n`. */
  function Part(cents: int, n: nat, k: nat): int
    requires k < n
  {
    (cents + (n - 1 - k)) / n
  }

  /** What a person is to bear of one entry, as often as it names them, from its `k`th place on. */
  function PartsFrom(entry: Entry, person: string, k: nat): int
    requires k <= |entry.shared|
    decreases |entry.shared| - k
  {
    if k == |entry.shared| then 0
    else (if entry.shared[k] == person then Part(entry.cents, |entry.shared|, k) else 0) + PartsFrom(entry, person, k + 1)
  }

  /** Everything a person had a part in. */
  function Borne(entries: seq<Entry>, person: string): int {
    if entries == [] then 0 else PartsFrom(entries[0], person, 0) + Borne(entries[1..], person)
  }

  lemma {:induction false} TimesAtLeast(n: nat, x: int)
    requires x >= 1
    ensures n * x >= n
    decreases x
  {
    if x > 1 {
      TimesAtLeast(n, x - 1);
      assert n * x == n * (x - 1) + n;
    }
  }

  lemma Spread(n: int, a: int, b: int)
    ensures n * (a - b) == n * a - n * b
  {
  }

  lemma DivisionIs(n: nat, q: int, r: int)
    requires n > 0 && 0 <= r < n
    ensures (n * q + r) / n == q
  {
    OnlyQuotient(n, q, r, (n * q + r) / n, (n * q + r) % n);
  }

  lemma OnlyQuotient(n: nat, q: int, r: int, d: int, m: int)
    requires n > 0 && 0 <= r < n && 0 <= m < n && n * q + r == n * d + m
    ensures q == d
  {
    Spread(n, q, d);
    Spread(n, d, q);
    if q > d {
      TimesAtLeast(n, q - d);
    } else if d > q {
      TimesAtLeast(n, d - q);
    }
  }

  /** Each share is the part that falls to its place. */
  lemma ShareIsPart(cents: int, n: nat, k: nat)
    requires k < n
    ensures SplitShares(cents, n)[k] == Part(cents, n, k)
  {
    var each, odd := cents / n, cents % n;
    assert cents == n * each + odd;
    if k < odd {
      assert cents + (n - 1 - k) == n * (each + 1) + (odd - 1 - k);
      DivisionIs(n, each + 1, odd - 1 - k);
    } else {
      DivisionIs(n, each, odd + (n - 1 - k));
    }
  }

  lemma {:induction false} DebitsFrom(entry: Entry, person: string, k: nat)
    requires k <= |entry.shared|
    ensures Net(Debits(entry, |entry.shared|)[k..], person) == -PartsFrom(entry, person, k)
    decreases |entry.shared| - k
  {
    var debits := Debits(entry, |entry.shared|);
    if k == |entry.shared| {
      assert debits[k..] == [];
    } else {
      DebitsFrom(entry, person, k + 1);
      ShareIsPart(entry.cents, |entry.shared|, k);
      assert debits[k..] == [debits[k]] + debits[k + 1..];
      SumsOfCons(debits[k], debits[k + 1..], person);
    }
  }

  lemma {:induction false} BumpsOfEntry(entry: Entry, person: string)
    ensures Net(Bumps(entry), person) == (if entry.payer == person then entry.cents else 0) - PartsFrom(entry, person, 0)
  {
    var debits := Debits(entry, |entry.shared|);
    assert debits[0..] == debits;
    DebitsFrom(entry, person, 0);
    SumsOfCons(Row(entry.payer, entry.cents), debits, person);
  }

  lemma {:induction false} BumpsCompose(a: seq<Entry>, b: seq<Entry>)
    ensures AllBumps(a + b) == AllBumps(a) + AllBumps(b)
  {
    if b == [] {
      assert a + b == a;
      assert AllBumps(b) == [];
    } else {
      var front, last := b[..|b| - 1], b[|b| - 1];
      BumpsCompose(a, front);
      assert (a + b)[..|a + b| - 1] == a + front;
      Associate(AllBumps(a), AllBumps(front), Bumps(last));
    }
  }

  /** Whatever the ledger, a person's position is what they laid out less what they had a part in. */
  lemma {:induction false} PositionIsLaidOutLessBorne(entries: seq<Entry>, person: string)
    ensures Position(entries, person) == LaidOut(entries, person) - Borne(entries, person)
  {
    if entries != [] {
      PositionIsLaidOutLessBorne(entries[1..], person);
      PositionOfFirst(entries[0], entries[1..], person);
      assert entries == [entries[0]] + entries[1..];
    }
  }

  lemma {:induction false} PositionOfFirst(entry: Entry, rest: seq<Entry>, person: string)
    ensures Position([entry] + rest, person)
         == (if entry.payer == person then entry.cents else 0) - PartsFrom(entry, person, 0) + Position(rest, person)
  {
    BumpsCompose([entry], rest);
    BumpsOfOne(entry);
    SumsCompose(Bumps(entry), AllBumps(rest), person);
    BumpsOfEntry(entry, person);
  }

  lemma {:induction false} BumpsOfOne(entry: Entry)
    ensures AllBumps([entry]) == Bumps(entry)
  {
    var one := [entry];
    assert one[..|one| - 1] == [] && AllBumps([]) == [];
    assert [] + Bumps(entry) == Bumps(entry);
  }

  /** No part is more than a cent over another, and none over one in front of it. */
  lemma PartsAreEven(cents: int, n: nat, j: nat, k: nat)
    requires j <= k < n
    ensures Part(cents, n, k) <= Part(cents, n, j) <= Part(cents, n, k) + 1
  {
    ShareIsPart(cents, n, j);
    ShareIsPart(cents, n, k);
  }

  // ---------------------------------------------------------------- who is settled with first

  /** `a` comes before `b`: for more, or for as much and the earlier name. */
  predicate Sooner(names: NameOrder, a: Row, b: Row) {
    a.cents > b.cents || (a.cents == b.cents && names(a.person, b.person))
  }

  lemma SortedIsSooner(queue: seq<Row>, names: NameOrder, i: nat, j: nat)
    requires TotalOrder(names) && i < j < |Sorted(queue, (left, right) => ByWeight(names, left, right))|
    ensures var sorted := Sorted(queue, (left, right) => ByWeight(names, left, right)); Sooner(names, sorted[i], sorted[j])
  {
    ByWeightIsTotal(names);
    SortedIsOrdered(queue, (left, right) => ByWeight(names, left, right));
  }

  /**
   * The first payment is from the largest debt to the largest credit, of equals the first by name, and of as much as
   * either has.
   */
  lemma FirstPayment(rows: seq<Row>, names: NameOrder, debtor: Row, creditor: Row)
    requires TotalOrder(names) && debtor in rows && debtor.cents < 0 && creditor in rows && creditor.cents > 0
    requires forall row :: row in rows && row.cents < 0 && row != debtor ==>
               row.cents > debtor.cents || (row.cents == debtor.cents && names(debtor.person, row.person) && !names(row.person, debtor.person))
    requires forall row :: row in rows && row.cents > 0 && row != creditor ==>
               row.cents < creditor.cents || (row.cents == creditor.cents && names(creditor.person, row.person) && !names(row.person, creditor.person))
    ensures Settlement(rows, names) != []
    ensures Settlement(rows, names)[0]
         == Transfer(debtor.person, creditor.person, if creditor.cents <= -debtor.cents then creditor.cents else -debtor.cents)
  {
    HasSide(rows, creditor, debtor);
    HeadIs(Creditors(rows), names, creditor);
    HeadIs(Debtors(rows), names, Row(debtor.person, -debtor.cents));
  }

  /** A creditor is among the creditors as it is, a debtor among the debtors with the size of its debt. */
  lemma HasSide(rows: seq<Row>, creditor: Row, debtor: Row)
    requires creditor in rows && creditor.cents > 0 && debtor in rows && debtor.cents < 0
    ensures creditor in Creditors(rows) && Row(debtor.person, -debtor.cents) in Debtors(rows)
    ensures forall row :: row in Creditors(rows) ==> row in rows && row.cents > 0
    ensures forall row :: row in Debtors(rows) ==> Row(row.person, -row.cents) in rows && row.cents > 0
  {
    CreditorsForgetOrder(rows, creditor);
    DebtorsForgetOrder(rows, Row(debtor.person, -debtor.cents));
    SideOf(rows);
    assert debtor == Row(debtor.person, debtor.cents);
    assert creditor in multiset(Creditors(rows)) && Row(debtor.person, -debtor.cents) in multiset(Debtors(rows));
  }

  lemma HeadIs(queue: seq<Row>, names: NameOrder, first: Row)
    requires TotalOrder(names) && first in queue
    requires forall row :: row in queue && row != first ==>
               row.cents < first.cents || (row.cents == first.cents && names(first.person, row.person) && !names(row.person, first.person))
    ensures Sorted(queue, (left, right) => ByWeight(names, left, right)) != []
    ensures Sorted(queue, (left, right) => ByWeight(names, left, right))[0] == first
  {
    var sorted := Sorted(queue, (left, right) => ByWeight(names, left, right));
    ByWeightIsTotal(names);
    SortedIsOrdered(queue, (left, right) => ByWeight(names, left, right));
    assert first in multiset(sorted);
    var k :| 0 <= k < |sorted| && sorted[k] == first;
    assert sorted[0] in multiset(queue);
  }
}
