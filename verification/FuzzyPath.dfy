/**
 * Go-to-file matching (src/shared/fuzzyPath.ts). The dynamic program is proved to find the best of all
 * the ways a query can be read out of a path, and the tiers to order paths as they are meant to.
 *
 * Scores are kept in hundredths, so that the tie-break on length is a whole number. Case folding and
 * white space are those of ASCII.
 */
module FuzzyPath {
  import Sorting
  import opened Text
  import opened Wrappers

  const WORD_START := 8
  const IN_NAME := 3
  const RUN := 10
  const TIER := 10_000

  // ---------------------------------------------------------------- text

  function LowerChar(c: char): char {
    if 'A' <= c <= 'Z' then (c as int + 32) as char else c
  }

  function Lower(s: string): (r: string)
    ensures |r| == |s| && forall i :: 0 <= i < |s| ==> r[i] == LowerChar(s[i])
  {
    seq(|s|, i requires 0 <= i < |s| => LowerChar(s[i]))
  }

  function WithoutSpace(s: string): string {
    if s == [] then [] else (if IsSpace(s[0]) then [] else [s[0]]) + WithoutSpace(s[1..])
  }

  function Wanted(query: string): string {
    WithoutSpace(Lower(query))
  }

  /** Where the last `c` of `s` stands, or -1. */
  function LastIndexOf(s: string, c: char): (at: int)
    ensures -1 <= at < |s|
    ensures at >= 0 ==> s[at] == c
    ensures forall k :: at < k < |s| ==> s[k] != c
  {
    if s == [] then -1
    else if s[|s| - 1] == c then |s| - 1
    else LastIndexOf(s[..|s| - 1], c)
  }

  predicate HoldsAt(text: string, wanted: string, at: nat) {
    at + |wanted| <= |text| && text[at..at + |wanted|] == wanted
  }

  predicate Includes(text: string, wanted: string) {
    exists at: nat | at <= |text| :: HoldsAt(text, wanted, at)
  }

  function MatchTier(path: string, query: string): (tier: nat)
    ensures tier <= 3
  {
    var wanted := Wanted(query);
    var lower := Lower(path);
    var name := lower[LastIndexOf(lower, '/') + 1..];
    var dot := LastIndexOf(name, '.');
    if name == wanted || (dot > 0 && name[..dot] == wanted) then 3
    else if wanted <= name then 2
    else if Includes(lower, wanted) then 1 else 0
  }

  // ---------------------------------------------------------------- readings of a query in a path

  /** One way to read `wanted` out of `text`: increasing places holding its characters in order. */
  ghost predicate Reads(text: string, wanted: string, places: seq<nat>) {
    && |places| == |wanted|
    && (forall k :: 0 <= k < |places| ==> places[k] < |text| && text[places[k]] == wanted[k])
    && (forall k, l :: 0 <= k < l < |places| ==> places[k] < places[l])
  }

  ghost predicate Readable(text: string, wanted: string) {
    exists places :: Reads(text, wanted, places)
  }

  predicate Lowercase(c: char) {
    'a' <= c <= 'z' || '0' <= c <= '9'
  }

  predicate StartsWord(path: string, index: nat)
    requires index < |path|
  {
    index == 0 ||
    var before := path[index - 1];
    before == '/' || before == '-' || before == '_' || before == '.' || before == ' ' ||
    (Lowercase(before) && 'A' <= path[index] <= 'Z')
  }

  function Bonus(path: string, index: nat): (b: nat)
    requires index < |path|
    ensures 1 <= b <= WORD_START + IN_NAME + 1
  {
    (if StartsWord(path, index) then WORD_START else 0) +
    (if index >= LastIndexOf(path, '/') + 1 then IN_NAME else 0) + 1
  }

  /** What one reading is worth: the bonus of each place, and RUN for every place right after the one before. */
  ghost function Points(path: string, places: seq<nat>): nat
    requires forall k :: 0 <= k < |places| ==> places[k] < |path|
  {
    if places == [] then 0
    else
      var n := |places| - 1;
      Points(path, places[..n]) + Bonus(path, places[n]) + (if n > 0 && places[n] == places[n - 1] + 1 then RUN else 0)
  }

  method IsSubsequence(text: string, wanted: string) returns (found: bool)
    ensures found <==> Readable(text, wanted)
  {
    var at := 0;
    var index := 0;
    ghost var places: seq<nat> := [];
    forall ps | |wanted| > 0
      ensures !Reads(text[..0], wanted[..1], ps)
    {
      assert |ps| == 1 ==> ps[0] >= |text[..0]|;
    }
    while index < |text| && at < |wanted|
      invariant 0 <= index <= |text| && 0 <= at <= |wanted|
      invariant Reads(text[..index], wanted[..at], places)
      invariant at < |wanted| ==> !Readable(text[..index], wanted[..at + 1])
    {
      NoFurther(text, wanted, index, at);
      if text[index] == wanted[at] {
        places := places + [index];
        at := at + 1;
      }
      index := index + 1;
    }
    if at == |wanted| {
      assert wanted[..at] == wanted;
      assert Reads(text, wanted, places);
    } else {
      assert text[..index] == text;
      if Readable(text, wanted) {
        PrefixReadable(text, wanted, at + 1);
      }
    }
    return at == |wanted|;
  }

  lemma PrefixReadable(text: string, wanted: string, n: nat)
    requires n <= |wanted| && Readable(text, wanted)
    ensures Readable(text, wanted[..n])
  {
    var places :| Reads(text, wanted, places);
    assert Reads(text, wanted[..n], places[..n]);
  }

  /** One more character of text reads at most one more character, and only if it is that character. */
  lemma NoFurther(text: string, wanted: string, index: nat, at: nat)
    requires index < |text| && at < |wanted| && !Readable(text[..index], wanted[..at + 1])
    ensures if text[index] == wanted[at] then at + 1 < |wanted| ==> !Readable(text[..index + 1], wanted[..at + 2])
            else !Readable(text[..index + 1], wanted[..at + 1])
  {
    if text[index] == wanted[at] {
      if at + 1 < |wanted| && Readable(text[..index + 1], wanted[..at + 2]) {
        var places :| Reads(text[..index + 1], wanted[..at + 2], places);
        ShorterReads(text, wanted, index, at + 1, places);
      }
    } else if Readable(text[..index + 1], wanted[..at + 1]) {
      var places :| Reads(text[..index + 1], wanted[..at + 1], places);
      assert places[at] < index;
      ReadsSooner(text, wanted, index, at + 1, places);
    }
  }

  lemma ShorterReads(text: string, wanted: string, index: nat, n: nat, places: seq<nat>)
    requires index < |text| && 0 < n < |wanted| && Reads(text[..index + 1], wanted[..n + 1], places)
    ensures Readable(text[..index], wanted[..n])
  {
    assert places[n - 1] < places[n];
    assert Reads(text[..index + 1], wanted[..n], places[..n]);
    ReadsSooner(text, wanted, index, n, places[..n]);
  }

  lemma ReadsSooner(text: string, wanted: string, index: nat, n: nat, places: seq<nat>)
    requires index < |text| && 0 < n <= |wanted| && Reads(text[..index + 1], wanted[..n], places) && places[n - 1] < index
    ensures Readable(text[..index], wanted[..n])
  {
    forall k | 0 <= k < n
      ensures places[k] < index
    {
      assert k < n - 1 ==> places[k] < places[n - 1];
    }
    assert Reads(text[..index], wanted[..n], places);
  }

  // ---------------------------------------------------------------- the dynamic program

  type Cell = Option<int>

  /** The greater of two scores; None is minus infinity. */
  function Greater(a: Cell, b: Cell): Cell {
    if a.None? then b else if b.None? then a else if a.value >= b.value then a else b
  }

  function Raised(a: Cell, bonus: int): Cell {
    if a.None? then None else Some(a.value + bonus)
  }

  function Back(index: nat, steps: nat): nat {
    if index >= steps then index - steps else 0
  }

  /** The best score with `wanted[..step + 1]` read and its last character placed at `index`. */
  ghost function Best(path: string, wanted: string, step: nat, index: nat): Cell
    requires step < |wanted| && index < |path|
    decreases step, index, 0
  {
    if Lower(path)[index] != wanted[step] then None
    else if step == 0 then Some(Bonus(path, index))
    else Raised(Greater(BestBefore(path, wanted, step - 1, Back(index, 1)),
                        if index >= 1 then Raised(Best(path, wanted, step - 1, index - 1), RUN) else None),
                Bonus(path, index))
  }

  /** The best over every placement of the last character before `end`. */
  ghost function BestBefore(path: string, wanted: string, step: nat, end: nat): Cell
    requires step < |wanted| && end <= |path|
    decreases step, end, 1
  {
    if end == 0 then None
    else Greater(BestBefore(path, wanted, step, end - 1), Best(path, wanted, step, end - 1))
  }

  lemma {:induction false} BestBeforeCovers(path: string, wanted: string, step: nat, end: nat, index: nat)
    requires step < |wanted| && index < end <= |path| && Best(path, wanted, step, index).Some?
    ensures BestBefore(path, wanted, step, end).Some?
    ensures BestBefore(path, wanted, step, end).value >= Best(path, wanted, step, index).value
  {
    if index < end - 1 {
      BestBeforeCovers(path, wanted, step, end - 1, index);
    }
  }

  lemma {:induction false} BestBeforeIsOne(path: string, wanted: string, step: nat, end: nat) returns (index: nat)
    requires step < |wanted| && end <= |path| && BestBefore(path, wanted, step, end).Some?
    ensures index < end && Best(path, wanted, step, index) == BestBefore(path, wanted, step, end)
  {
    if Best(path, wanted, step, end - 1) == BestBefore(path, wanted, step, end) {
      index := end - 1;
    } else {
      index := BestBeforeIsOne(path, wanted, step, end - 1);
    }
  }

  /** No reading that ends at a place is worth more than the table says. */
  lemma {:induction false} TableBoundsEveryReading(path: string, wanted: string, places: seq<nat>)
    requires wanted != [] && Reads(Lower(path), wanted, places)
    ensures var end := places[|places| - 1];
            Best(path, wanted, |wanted| - 1, end).Some? && Best(path, wanted, |wanted| - 1, end).value >= Points(path, places)
  {
    BestOfPrefix(path, wanted, places, |wanted|);
    assert places[..|wanted|] == places;
  }

  lemma {:induction false} BestOfPrefix(path: string, wanted: string, places: seq<nat>, n: nat)
    requires 0 < n <= |wanted| && Reads(Lower(path), wanted, places)
    ensures Best(path, wanted, n - 1, places[n - 1]).Some?
    ensures Best(path, wanted, n - 1, places[n - 1]).value >= Points(path, places[..n])
  {
    assert places[..n][..n - 1] == places[..n - 1];
    if n == 1 {
      assert Points(path, places[..0]) == 0;
    } else {
      BestOfPrefix(path, wanted, places, n - 1);
      assert places[n - 2] < places[n - 1];
      BestFromEarlier(path, wanted, n - 1, places[n - 2], places[n - 1]);
    }
  }

  /** Whatever the character before was placed at, the table reckons with it. */
  lemma BestFromEarlier(path: string, wanted: string, step: nat, from: nat, index: nat)
    requires 0 < step < |wanted| && from < index < |path| && Lower(path)[index] == wanted[step]
    requires Best(path, wanted, step - 1, from).Some?
    ensures Best(path, wanted, step, index).Some?
    ensures Best(path, wanted, step, index).value
         >= Best(path, wanted, step - 1, from).value + Bonus(path, index) + if from == index - 1 then RUN else 0
  {
    if from < index - 1 {
      BestBeforeCovers(path, wanted, step - 1, index - 1, from);
    }
  }

  /** Every score in the table is the worth of some reading. */
  lemma {:induction false} TableIsAchieved(path: string, wanted: string, step: nat, index: nat) returns (places: seq<nat>)
    requires step < |wanted| && index < |path| && Best(path, wanted, step, index).Some?
    ensures Reads(Lower(path), wanted[..step + 1], places) && places[step] == index
    ensures Points(path, places) == Best(path, wanted, step, index).value
    decreases step
  {
    if step == 0 {
      places := [index];
      assert places[..0] == [];
    } else {
      var from := BestStep(path, wanted, step, index);
      var before := TableIsAchieved(path, wanted, step - 1, from);
      places := before + [index];
      PointsOfOneMore(path, before, index);
      ReadsOneMore(Lower(path), wanted, step, before, index);
    }
  }

  /** Where the best score at a place came from. */
  lemma BestStep(path: string, wanted: string, step: nat, index: nat) returns (from: nat)
    requires 0 < step < |wanted| && index < |path| && Best(path, wanted, step, index).Some?
    ensures from < index && Best(path, wanted, step - 1, from).Some?
    ensures Best(path, wanted, step, index).value
         == Best(path, wanted, step - 1, from).value + Bonus(path, index) + if from == index - 1 then RUN else 0
  {
    var far := BestBefore(path, wanted, step - 1, Back(index, 1));
    var near := if index >= 1 then Raised(Best(path, wanted, step - 1, index - 1), RUN) else None;
    if Greater(far, near) == near {
      from := index - 1;
    } else {
      from := BestBeforeIsOne(path, wanted, step - 1, Back(index, 1));
    }
  }

  lemma PointsOfOneMore(path: string, before: seq<nat>, index: nat)
    requires before != [] && index < |path| && forall k :: 0 <= k < |before| ==> before[k] < |path|
    ensures Points(path, before + [index])
         == Points(path, before) + Bonus(path, index) + if before[|before| - 1] == index - 1 then RUN else 0
  {
    assert (before + [index])[..|before|] == before;
  }

  lemma ReadsOneMore(text: string, wanted: string, n: nat, before: seq<nat>, index: nat)
    requires 0 < n < |wanted| && Reads(text, wanted[..n], before) && before[n - 1] < index < |text| && text[index] == wanted[n]
    ensures Reads(text, wanted[..n + 1], before + [index])
  {
    var places := before + [index];
    forall k, l | 0 <= k < l < |places|
      ensures places[k] < places[l]
    {
      assert k < n - 1 ==> before[k] < before[n - 1];
    }
  }

  ghost predicate IsBestReading(path: string, wanted: string, best: int) {
    && (exists places :: Reads(Lower(path), wanted, places) && Points(path, places) == best)
    && (forall places :: Reads(Lower(path), wanted, places) ==> Points(path, places) <= best)
  }

  /** One row of the table from the one before, exactly as the inner loop fills it. */
  method NextRow(path: string, wanted: string, step: nat, best: array<Cell>) returns (next: array<Cell>)
    requires step < |wanted| && best.Length == |path|
    requires step > 0 ==> forall k :: 0 <= k < |path| ==> best[k] == Best(path, wanted, step - 1, k)
    ensures fresh(next) && next.Length == |path|
    ensures forall k :: 0 <= k < |path| ==> next[k] == Best(path, wanted, step, k)
  {
    var lower := Lower(path);
    next := new Cell[|path|](_ => None);
    var earlier: Cell := None;
    var index := 0;
    while index < |path|
      invariant 0 <= index <= |path|
      invariant step > 0 ==> earlier == BestBefore(path, wanted, step - 1, Back(index, 2))
      invariant forall k :: 0 <= k < index ==> next[k] == Best(path, wanted, step, k)
    {
      if index >= 2 {
        earlier := Greater(earlier, best[index - 2]);
      }
      next[index] := CellAt(path, lower, wanted, step, index, earlier, if index >= 1 then best[index - 1] else None);
      index := index + 1;
    }
  }

  /** The score with the current character at `index`, from the two ways of having placed the one before. */
  function CellAt(path: string, lower: string, wanted: string, step: nat, index: nat, earlier: Cell, adjacent: Cell): (cell: Cell)
    requires step < |wanted| && index < |path| && lower == Lower(path)
    requires step > 0 ==> earlier == BestBefore(path, wanted, step - 1, Back(index, 1))
    requires step > 0 ==> adjacent == if index >= 1 then Best(path, wanted, step - 1, index - 1) else None
    ensures cell == Best(path, wanted, step, index)
  {
    if lower[index] != wanted[step] then None
    else
      var from := if step == 0 then Some(0) else Greater(earlier, Raised(adjacent, RUN));
      Raised(from, Bonus(path, index))
  }

  method FuzzyPathScore(path: string, query: string) returns (score: Option<int>)
    ensures score == PathScore(path, query)
    ensures Wanted(query) == "" ==> score == Some(0)
    ensures Wanted(query) != "" ==> (score.None? <==> !Readable(Lower(path), Wanted(query)))
    ensures Wanted(query) != "" && score.Some? ==>
              exists best :: IsBestReading(path, Wanted(query), best) &&
                             score.value == Score(path, Wanted(query), best)
  {
    var wanted := Wanted(query);
    if wanted == "" {
      return Some(0);
    }
    var found := IsSubsequence(Lower(path), wanted);
    if !found {
      return None;
    }
    var most := LastRowMaximum(path, wanted);
    OptimumIsBest(path, wanted);
    return Some(Score(path, wanted, most.value));
  }

  /** The table, a row at a time, and the greatest score of its last row. */
  method LastRowMaximum(path: string, wanted: string) returns (most: Cell)
    requires wanted != ""
    ensures most == Optimum(path, wanted)
  {
    var best := new Cell[|path|](_ => None);
    for step := 0 to |wanted|
      invariant best.Length == |path|
      invariant step > 0 ==> forall k :: 0 <= k < |path| ==> best[k] == Best(path, wanted, step - 1, k)
    {
      best := NextRow(path, wanted, step, best);
    }
    most := None;
    for k := 0 to |path|
      invariant most == BestBefore(path, wanted, |wanted| - 1, k)
    {
      most := Greater(most, best[k]);
    }
  }

  /** The last row's maximum: what the program reads off the table. */
  ghost function Optimum(path: string, wanted: string): Cell
    requires wanted != ""
  {
    BestBefore(path, wanted, |wanted| - 1, |path|)
  }

  lemma OptimumBounds(path: string, wanted: string, places: seq<nat>)
    requires wanted != "" && Reads(Lower(path), wanted, places)
    ensures Optimum(path, wanted).Some? && Points(path, places) <= Optimum(path, wanted).value
  {
    TableBoundsEveryReading(path, wanted, places);
    BestBeforeCovers(path, wanted, |wanted| - 1, |path|, places[|wanted| - 1]);
  }

  lemma OptimumIsRead(path: string, wanted: string) returns (places: seq<nat>)
    requires wanted != "" && Optimum(path, wanted).Some?
    ensures Reads(Lower(path), wanted, places) && Points(path, places) == Optimum(path, wanted).value
  {
    var step := |wanted| - 1;
    var index := BestBeforeIsOne(path, wanted, step, |path|);
    places := TableIsAchieved(path, wanted, step, index);
    assert wanted[..step + 1] == wanted;
  }

  lemma OptimumIsBest(path: string, wanted: string)
    requires wanted != ""
    ensures Optimum(path, wanted).Some? <==> Readable(Lower(path), wanted)
    ensures Optimum(path, wanted).Some? ==> IsBestReading(path, wanted, Optimum(path, wanted).value)
  {
    forall places | Reads(Lower(path), wanted, places)
      ensures Optimum(path, wanted).Some? && Points(path, places) <= Optimum(path, wanted).value
    {
      OptimumBounds(path, wanted, places);
    }
    if Optimum(path, wanted).Some? {
      var places := OptimumIsRead(path, wanted);
    }
  }

  // ---------------------------------------------------------------- tiers

  lemma {:induction false} WithoutSpaceIsStable(s: string)
    ensures forall c :: c in WithoutSpace(s) ==> c in s && !IsSpace(c)
    ensures (forall c :: c in s ==> !IsSpace(c)) ==> WithoutSpace(s) == s
  {
    if s != [] {
      WithoutSpaceIsStable(s[1..]);
    }
  }

  /** Folding a query twice is folding it once, so the tier of a folded query is the tier of the query. */
  lemma WantedIsStable(query: string)
    ensures Wanted(Wanted(query)) == Wanted(query)
  {
    var wanted := Wanted(query);
    WithoutSpaceIsStable(Lower(query));
    forall k | 0 <= k < |wanted|
      ensures Lower(wanted)[k] == wanted[k]
    {
      assert wanted[k] in Lower(query);
    }
    assert Lower(wanted) == wanted;
    WithoutSpaceIsStable(wanted);
  }

  lemma TierIsAboveLowest(path: string, query: string)
    requires MatchTier(path, query) > 0
    ensures Wanted(query) <= Lower(path)[LastIndexOf(Lower(path), '/') + 1..] || Includes(Lower(path), Wanted(query))
  {
    var name := Lower(path)[LastIndexOf(Lower(path), '/') + 1..];
    var dot := LastIndexOf(name, '.');
    if dot > 0 && name[..dot] == Wanted(query) {
      assert Wanted(query) <= name;
    }
  }

  /** In every tier above the lowest the path holds the query in one run. */
  lemma TierHoldsARun(path: string, query: string) returns (at: nat)
    requires MatchTier(path, query) > 0
    ensures HoldsAt(Lower(path), Wanted(query), at)
  {
    TierIsAboveLowest(path, query);
    at := RunIn(Lower(path), Wanted(query), LastIndexOf(Lower(path), '/') + 1);
  }

  lemma RunIn(text: string, wanted: string, from: nat) returns (at: nat)
    requires from <= |text| && (wanted <= text[from..] || Includes(text, wanted))
    ensures HoldsAt(text, wanted, at)
  {
    if wanted <= text[from..] {
      TailHolds(text, wanted, from);
      at := from;
    } else {
      at :| at <= |text| && HoldsAt(text, wanted, at);
    }
  }

  lemma TailHolds(text: string, wanted: string, from: nat)
    requires from <= |text| && wanted <= text[from..]
    ensures HoldsAt(text, wanted, from)
  {
    assert text[from..][..|wanted|] == text[from..from + |wanted|];
  }

  lemma {:induction false} PointsAtMost(path: string, places: seq<nat>)
    requires places != [] && forall k :: 0 <= k < |places| ==> places[k] < |path|
    ensures Points(path, places) <= 22 * |places| - RUN
  {
    var n := |places| - 1;
    if n > 0 {
      PointsAtMost(path, places[..n]);
    } else {
      assert Points(path, places[..0]) == 0;
    }
  }

  function RunOf(at: nat, n: nat): seq<nat> {
    seq(n, k requires 0 <= k < n => at + k)
  }

  /** The least a run of `n` places can be worth, knowing or not that every one of them starts a word in the name. */
  function RunWorth(starts: bool, n: nat): int {
    (if starts then 22 else 11) * n - RUN
  }

  lemma {:induction false} PointsOfRun(path: string, at: nat, n: nat, starts: bool)
    requires n > 0 && at + n <= |path|
    requires starts ==> forall k :: at <= k < at + n ==> Bonus(path, k) == WORD_START + IN_NAME + 1
    ensures Points(path, RunOf(at, n)) >= RunWorth(starts, n)
  {
    var places := RunOf(at, n);
    assert places[..n - 1] == RunOf(at, n - 1);
    if n > 1 {
      PointsOfRun(path, at, n - 1, starts);
    } else {
      assert Points(path, places[..0]) == 0;
    }
  }

  function Score(path: string, wanted: string, best: int): int {
    (MatchTier(path, wanted) * TIER + best) * 100 - |path|
  }

  lemma RunIsRead(path: string, wanted: string, at: nat, starts: bool, best: int)
    requires wanted != "" && HoldsAt(Lower(path), wanted, at) && IsBestReading(path, wanted, best)
    requires starts ==> forall k :: at <= k < at + |wanted| ==> Bonus(path, k) == WORD_START + IN_NAME + 1
    ensures best >= RunWorth(starts, |wanted|)
  {
    RunReads(path, wanted, at);
    PointsOfRun(path, at, |wanted|, starts);
  }

  lemma AtMostPerCharacter(path: string, wanted: string, best: int)
    requires wanted != "" && IsBestReading(path, wanted, best)
    ensures best <= 22 * |wanted| - RUN
  {
    var places :| Reads(Lower(path), wanted, places) && Points(path, places) == best;
    PointsAtMost(path, places);
  }

  /**
   * A better tier always wins, whatever the two paths otherwise score, as long as the query is not so
   * long that the worse path could make up a tier on its bonuses.
   */
  lemma BetterTierWins(better: string, worse: string, query: string, bestBetter: int, bestWorse: int)
    requires var wanted := Wanted(query);
      && wanted != "" && 1100 * |wanted| + |better| < 100 * TIER
      && IsBestReading(better, wanted, bestBetter) && IsBestReading(worse, wanted, bestWorse)
      && MatchTier(better, wanted) > MatchTier(worse, wanted)
    ensures Score(better, Wanted(query), bestBetter) > Score(worse, Wanted(query), bestWorse)
  {
    var wanted := Wanted(query);
    WantedIsStable(query);
    var at := TierHoldsARun(better, wanted);
    RunIsRead(better, wanted, at, false, bestBetter);
    AtMostPerCharacter(worse, wanted, bestWorse);
  }

  /** With a query within its cap that is always, but for a path longer than any file system has. */
  lemma BetterTierWinsWithinCaps(better: string, worse: string, query: string, bestBetter: int, bestWorse: int)
    requires var wanted := Wanted(query);
      && wanted != "" && |query| <= 512 && |better| < 436_800
      && IsBestReading(better, wanted, bestBetter) && IsBestReading(worse, wanted, bestWorse)
      && MatchTier(better, wanted) > MatchTier(worse, wanted)
    ensures Score(better, Wanted(query), bestBetter) > Score(worse, Wanted(query), bestWorse)
  {
    WithoutSpaceIsShorter(Lower(query));
    BetterTierWins(better, worse, query, bestBetter, bestWorse);
  }

  lemma WithoutSpaceIsShorter(s: string)
    ensures |WithoutSpace(s)| <= |s|
  {
  }

  predicate AllDashes(path: string) {
    forall k :: 0 <= k < |path| ==> path[k] == '-'
  }

  /** Every place in the path is worth the most a place can be. */
  predicate AllStartWords(path: string) {
    forall k :: 0 <= k < |path| ==> Bonus(path, k) == WORD_START + IN_NAME + 1
  }

  lemma {:induction false} DashesAllStartWords(path: string)
    requires AllDashes(path)
    ensures AllStartWords(path)
  {
    assert LastIndexOf(path, '/') == -1;
  }

  lemma {:induction false} DashesHoldDashes(path: string, wanted: string)
    requires AllDashes(path) && AllDashes(wanted) && |wanted| <= |path|
    ensures HoldsAt(Lower(path), wanted, 0)
  {
    assert Lower(path)[0..|wanted|] == wanted;
  }

  function Dashes(n: nat): (dashes: string)
    ensures |dashes| == n && AllDashes(dashes)
  {
    seq(n, _ => '-')
  }

  /** A query of nothing but dashes is worth the most a query can be, on any path of nothing but dashes. */
  lemma {:induction false} DashesAreWorthMost(path: string, wanted: string, best: int)
    requires AllDashes(path) && AllDashes(wanted) && 0 < |wanted| <= |path| && IsBestReading(path, wanted, best)
    ensures best == 22 * |wanted| - RUN
  {
    DashesAllStartWords(path);
    DashesHoldDashes(path, wanted);
    RunIsRead(path, wanted, 0, true, best);
    AtMostPerCharacter(path, wanted, best);
  }

  lemma {:induction false} DashesHaveBest(n: nat) returns (best: int)
    requires n > 0
    ensures IsBestReading(Dashes(n + 1), Dashes(n), best)
  {
    DashesHoldDashes(Dashes(n + 1), Dashes(n));
    RunReads(Dashes(n + 1), Dashes(n), 0);
    OptimumIsBest(Dashes(n + 1), Dashes(n));
    best := Optimum(Dashes(n + 1), Dashes(n)).value;
  }

  lemma RunReads(path: string, wanted: string, at: nat)
    requires HoldsAt(Lower(path), wanted, at)
    ensures Reads(Lower(path), wanted, RunOf(at, |wanted|))
  {
    forall k | 0 <= k < |wanted|
      ensures Lower(path)[RunOf(at, |wanted|)[k]] == wanted[k]
    {
      assert Lower(path)[at..at + |wanted|][k] == wanted[k];
    }
  }

  /** The best of every reading of every query of `n` characters, in any path, is below a tier. */
  ghost predicate BelowTier(n: nat) {
    forall path, wanted, best :: |wanted| == n && IsBestReading(path, wanted, best) ==> best < TIER
  }

  /** The same once the path's length is taken off, as the score takes it. */
  ghost predicate BelowTierLessLength(n: nat) {
    forall path, wanted, best :: |wanted| == n && IsBestReading(path, wanted, best) ==> 100 * best - |path| < 100 * TIER
  }

  /**
   * TIER is above every score inside a tier, as its comment has it, only for queries of at most 454 characters, or 455
   * with the path's length taken off. What it is for holds all the same (`BetterTierWins`), because the better path
   * holds the query in one run as well.
   */
  lemma TierIsAboveExactly(n: nat)
    requires n > 0
    ensures BelowTier(n) <==> n <= 454
    ensures BelowTierLessLength(n) <==> n <= 455
  {
    forall path, wanted, best | |wanted| == n && IsBestReading(path, wanted, best)
      ensures best <= 22 * n - RUN && |path| > 0
    {
      AtMostPerCharacter(path, wanted, best);
    }
    var best := DashesHaveBest(n);
    DashesAreWorthMost(Dashes(n + 1), Dashes(n), best);
  }

  // ---------------------------------------------------------------- ranking

  /** The score the dynamic program gives: see `FuzzyPathScore`. */
  ghost function PathScore(path: string, query: string): Option<int> {
    var wanted := Wanted(query);
    if wanted == "" then Some(0)
    else if !Readable(Lower(path), wanted) then None
    else
      OptimumIsBest(path, wanted);
      Some(Score(path, wanted, Optimum(path, wanted).value))
  }

  datatype Scored = Scored(path: string, points: int)

  /** The order of strings by code unit. */
  predicate Less(a: string, b: string) {
    b != "" && (a == "" || a[0] < b[0] || (a[0] == b[0] && Less(a[1..], b[1..])))
  }

  lemma {:induction false} LessIsTotal(a: string, b: string)
    ensures Less(a, b) || Less(b, a) || a == b
    ensures !(Less(a, b) && Less(b, a))
  {
    if a != "" && b != "" && a[0] == b[0] {
      LessIsTotal(a[1..], b[1..]);
    }
  }

  lemma {:induction false} LessIsTransitive(a: string, b: string, c: string)
    requires !Less(b, a) && !Less(c, b)
    ensures !Less(c, a)
  {
    if a != "" && b != "" && c != "" && a[0] == b[0] == c[0] {
      LessIsTransitive(a[1..], b[1..], c[1..]);
    }
  }

  /** `a` may stand before `b`: more points, or as many and no later a path. */
  predicate Before(a: Scored, b: Scored) {
    a.points > b.points || (a.points == b.points && !Less(b.path, a.path))
  }

  lemma BeforeIsTotal()
    ensures Sorting.TotalOrder(Before)
  {
    forall a: Scored, b: Scored
      ensures Before(a, b) || Before(b, a)
      ensures Before(a, b) && Before(b, a) ==> a == b
    {
      LessIsTotal(a.path, b.path);
    }
    forall a: Scored, b: Scored, c: Scored | Before(a, b) && Before(b, c)
      ensures Before(a, c)
    {
      if a.points == b.points == c.points {
        LessIsTransitive(a.path, b.path, c.path);
      }
    }
  }

  ghost function ScoreBy(query: string): string -> Option<int> {
    path => PathScore(path, query)
  }

  /** Every path that has a score, with it, as the collecting loop meets them. */
  function Scores(paths: seq<string>, score: string -> Option<int>): seq<Scored> {
    if paths == [] then []
    else
      var path := paths[|paths| - 1];
      Scores(paths[..|paths| - 1], score) + (if score(path).Some? then [Scored(path, score(path).value)] else [])
  }

  ghost function Matches(paths: seq<string>, query: string): seq<Scored> {
    Scores(paths, ScoreBy(query))
  }

  function PathsOf(rows: seq<Scored>): seq<string> {
    seq(|rows|, k requires 0 <= k < |rows| => rows[k].path)
  }

  ghost function Ranking(paths: seq<string>, query: string): seq<Scored> {
    Sorting.Sorted(Matches(paths, query), Before)
  }

  /** The best `limit` matches, best first. */
  method RankPaths(paths: seq<string>, query: string, limit: nat) returns (ranked: seq<string>, truncated: bool)
    ensures var all := Ranking(paths, query); ranked == PathsOf(if |all| <= limit then all else all[..limit])
    ensures truncated <==> |Ranking(paths, query)| > limit
  {
    var scored: seq<Scored> := [];
    for k := 0 to |paths|
      invariant scored == Matches(paths[..k], query)
    {
      var points := FuzzyPathScore(paths[k], query);
      assert paths[..k + 1][..k] == paths[..k];
      if points.Some? {
        scored := scored + [Scored(paths[k], points.value)];
      }
    }
    assert paths[..|paths|] == paths;
    var sorted := Sorting.Sort(scored, Before);
    Sorting.SortedIsPermutation(scored, Before);
    assert |multiset(sorted)| == |multiset(scored)|;
    ranked := PathsOf(if |sorted| <= limit then sorted else sorted[..limit]);
    truncated := |scored| > limit;
  }

  lemma {:induction false} ScoresAre(paths: seq<string>, score: string -> Option<int>, row: Scored)
    ensures multiset(Scores(paths, score))[row] == if score(row.path) == Some(row.points) then multiset(paths)[row.path] else 0
  {
    if paths != [] {
      var front, path := paths[..|paths| - 1], paths[|paths| - 1];
      ScoresAre(front, score, row);
      OneMoreMatch(Scores(front, score), path, score(path), row);
      assert paths == front + [path];
    }
  }

  lemma OneMoreMatch(rows: seq<Scored>, path: string, points: Option<int>, row: Scored)
    ensures multiset(rows + if points.Some? then [Scored(path, points.value)] else [])[row]
         == multiset(rows)[row] + if path == row.path && points == Some(row.points) then 1 else 0
  {
  }

  /**
   * A ranking holds every path that matches as often as it was given and no other, each with its score, the better
   * before the worse and equals in path order; and it is the same however the paths were arranged.
   */
  lemma RankingIsExact(paths: seq<string>, query: string, again: seq<string>)
    ensures Sorting.Ordered(Ranking(paths, query), Before)
    ensures forall row :: multiset(Ranking(paths, query))[row]
                       == if PathScore(row.path, query) == Some(row.points) then multiset(paths)[row.path] else 0
    ensures multiset(paths) == multiset(again) ==> Ranking(paths, query) == Ranking(again, query)
  {
    BeforeIsTotal();
    Sorting.SortedIsOrdered(Matches(paths, query), Before);
    forall row
      ensures multiset(Matches(paths, query))[row]
           == if PathScore(row.path, query) == Some(row.points) then multiset(paths)[row.path] else 0
    {
      ScoresAre(paths, ScoreBy(query), row);
    }
    if multiset(paths) == multiset(again) {
      forall row
        ensures multiset(Matches(paths, query))[row] == multiset(Matches(again, query))[row]
      {
        ScoresAre(paths, ScoreBy(query), row);
        ScoresAre(again, ScoreBy(query), row);
      }
      Sorting.SortedForgetsOrder(Matches(paths, query), Matches(again, query), Before);
    }
  }
}
