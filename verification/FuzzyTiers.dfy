/**
 * What a go-to-file score says about the text of a path (src/shared/fuzzyPath.ts): how its name relates to the query
 * decides first, however the two are spelled, and then what each place read is worth.
 */
module FuzzyTiers {
  import opened FuzzyPath
  import Sorting
  import opened Text
  import opened Wrappers

  // ---------------------------------------------------------------- a path and its name

  predicate InDirectory(path: string, dir: string, name: string) {
    path == dir + ("/" + name)
  }

  /** The path is this name, in a directory or in none. */
  ghost predicate HasName(path: string, name: string) {
    '/' !in name && (path == name || exists dir :: InDirectory(path, dir, name))
  }

  predicate HasExtension(name: string, stem: string, extension: string) {
    name == stem + ("." + extension) && stem != "" && '.' !in extension
  }

  /** The query is the name, or what stands before the name's last dot. */
  ghost predicate Names(name: string, wanted: string) {
    Lower(name) == wanted || exists stem, extension :: HasExtension(name, stem, extension) && Lower(stem) == wanted
  }

  ghost predicate Named(path: string, wanted: string) {
    exists name :: HasName(path, name) && Names(name, wanted)
  }

  predicate Begins(text: string, wanted: string, rest: string) {
    text == wanted + rest
  }

  ghost predicate NameStarts(path: string, wanted: string) {
    exists name, rest :: HasName(path, name) && Begins(Lower(name), wanted, rest)
  }

  predicate Surrounds(text: string, before: string, wanted: string, after: string) {
    text == before + (wanted + after)
  }

  ghost predicate HoldsRun(path: string, wanted: string) {
    exists before, after :: Surrounds(Lower(path), before, wanted, after)
  }

  // ---------------------------------------------------------------- reading them off the text

  lemma {:induction false} LastIs(s: string, c: char, before: string, after: string)
    requires s == before + ([c] + after) && c !in after
    ensures LastIndexOf(s, c) == |before|
  {
    assert s[|before|] == c;
    forall k | |before| < k < |s|
      ensures s[k] != c
    {
      assert s[k] == after[k - |before| - 1];
    }
  }

  lemma {:induction false} LowerOf(a: string, b: string)
    ensures Lower(a + b) == Lower(a) + Lower(b)
  {
  }

  lemma {:induction false} LowerHas(s: string, c: char)
    requires c == '/' || c == '.'
    ensures c in Lower(s) <==> c in s
  {
    if c in s {
      var k :| 0 <= k < |s| && s[k] == c;
      assert Lower(s)[k] == c;
    }
    if c in Lower(s) {
      var k :| 0 <= k < |s| && Lower(s)[k] == c;
      assert s[k] == c;
    }
  }

  /** The name, as the code cuts it off the lowered path. */
  function NameOf(lower: string): string {
    lower[LastIndexOf(lower, '/') + 1..]
  }

  lemma {:induction false} CutAfterSlash(dir: string, name: string)
    requires '/' !in name
    ensures NameOf(dir + ("/" + name)) == name
  {
    var path := dir + ("/" + name);
    LastIs(path, '/', dir, name);
    assert path[|dir| + 1..] == name;
  }

  lemma {:induction false} NoSlashNoCut(name: string)
    requires '/' !in name
    ensures NameOf(name) == name
  {
  }

  lemma {:induction false} NameIsCut(path: string, name: string)
    requires HasName(path, name)
    ensures NameOf(Lower(path)) == Lower(name)
  {
    LowerHas(name, '/');
    if path == name {
      NoSlashNoCut(Lower(name));
    } else {
      var dir :| InDirectory(path, dir, name);
      LowerInDirectory(dir, name);
      CutAfterSlash(Lower(dir), Lower(name));
    }
  }

  lemma {:induction false} LowerInDirectory(dir: string, name: string)
    ensures Lower(dir + ("/" + name)) == Lower(dir) + ("/" + Lower(name))
  {
    LowerOf(dir, "/" + name);
    LowerOf("/", name);
    assert Lower("/") == "/";
  }

  lemma {:induction false} NameEndsPath(path: string, name: string) returns (front: string)
    requires HasName(path, name)
    ensures Lower(path) == front + Lower(name)
  {
    if path == name {
      front := "";
      assert Lower(path) == "" + Lower(name);
    } else {
      var dir :| InDirectory(path, dir, name);
      LowerInDirectory(dir, name);
      front := Lower(dir) + "/";
      Associate(Lower(dir), "/", Lower(name));
    }
  }

  lemma CutAt(path: string, at: nat)
    requires at < |path| && path[at] == '/'
    ensures InDirectory(path, path[..at], path[at + 1..])
  {
    assert path == path[..at] + ("/" + path[at + 1..]);
  }

  /** Every path has a name. */
  lemma {:induction false} NameThereIs(path: string) returns (name: string)
    ensures HasName(path, name)
  {
    var at := LastIndexOf(path, '/');
    name := path[at + 1..];
    forall k | 0 <= k < |name|
      ensures name[k] != '/'
    {
      assert path[at + 1 + k] != '/';
    }
    if at >= 0 {
      CutAt(path, at);
    } else {
      assert path == name;
    }
  }

  predicate CodeNames(lowered: string, wanted: string) {
    var dot := LastIndexOf(lowered, '.');
    lowered == wanted || (dot > 0 && lowered[..dot] == wanted)
  }

  lemma {:induction false} ExtensionIsCut(name: string, stem: string, extension: string)
    requires HasExtension(name, stem, extension)
    ensures LastIndexOf(Lower(name), '.') == |stem| > 0 && Lower(name)[..|stem|] == Lower(stem)
  {
    LowerOf(stem, "." + extension);
    LowerOf(".", extension);
    LowerHas(extension, '.');
    assert Lower(".") == ".";
    LastIs(Lower(name), '.', Lower(stem), Lower(extension));
  }

  lemma {:induction false} ExtensionThereIs(name: string, dot: nat)
    requires LastIndexOf(Lower(name), '.') == dot > 0
    ensures HasExtension(name, name[..dot], name[dot + 1..]) && Lower(name[..dot]) == Lower(name)[..dot]
  {
    var lowered := Lower(name);
    var extension := name[dot + 1..];
    forall k | 0 <= k < |extension|
      ensures extension[k] != '.'
    {
      assert lowered[dot + 1 + k] != '.';
    }
    assert name[dot] == '.';
    assert name == name[..dot] + ("." + extension);
  }

  lemma {:induction false} NamesAsCoded(name: string, wanted: string)
    ensures Names(name, wanted) <==> CodeNames(Lower(name), wanted)
  {
    var dot := LastIndexOf(Lower(name), '.');
    if dot > 0 {
      ExtensionThereIs(name, dot);
    }
    forall stem, extension | HasExtension(name, stem, extension)
      ensures dot == |stem| > 0 && Lower(name)[..dot] == Lower(stem)
    {
      ExtensionIsCut(name, stem, extension);
    }
  }

  lemma SurroundedHolds(text: string, before: string, wanted: string, after: string)
    requires Surrounds(text, before, wanted, after)
    ensures |before| <= |text| && HoldsAt(text, wanted, |before|)
  {
    assert text[|before|..|before| + |wanted|] == wanted;
  }

  lemma HeldIsSurrounded(text: string, wanted: string, at: nat)
    requires HoldsAt(text, wanted, at)
    ensures Surrounds(text, text[..at], wanted, text[at + |wanted|..])
  {
    assert text == text[..at] + (text[at..at + |wanted|] + text[at + |wanted|..]);
  }

  lemma {:induction false} RunAsCoded(path: string, wanted: string)
    ensures HoldsRun(path, wanted) <==> Includes(Lower(path), wanted)
  {
    var lower := Lower(path);
    if HoldsRun(path, wanted) {
      var before, after :| Surrounds(lower, before, wanted, after);
      SurroundedHolds(lower, before, wanted, after);
    }
    if Includes(lower, wanted) {
      var at: nat :| at <= |lower| && HoldsAt(lower, wanted, at);
      HeldIsSurrounded(lower, wanted, at);
    }
  }

  lemma BeginsIsPrefix(text: string, wanted: string)
    ensures (exists rest :: Begins(text, wanted, rest)) <==> wanted <= text
  {
    if wanted <= text {
      assert Begins(text, wanted, text[|wanted|..]);
    }
  }

  lemma {:induction false} StartAsCoded(path: string, name: string, wanted: string)
    requires HasName(path, name)
    ensures NameStarts(path, wanted) <==> wanted <= Lower(name)
  {
    NameIsCut(path, name);
    BeginsIsPrefix(Lower(name), wanted);
    if NameStarts(path, wanted) {
      var other, rest :| HasName(path, other) && Begins(Lower(other), wanted, rest);
      NameIsCut(path, other);
    }
  }

  lemma {:induction false} NamedAsCoded(path: string, name: string, wanted: string)
    requires HasName(path, name)
    ensures Named(path, wanted) <==> CodeNames(Lower(name), wanted)
  {
    NameIsCut(path, name);
    NamesAsCoded(name, wanted);
    if Named(path, wanted) {
      var other :| HasName(path, other) && Names(other, wanted);
      NameIsCut(path, other);
      NamesAsCoded(other, wanted);
    }
  }

  /** How a path's text relates to the query: by its name, by how its name starts, by a run anywhere, or not at all. */
  ghost function TextTier(path: string, wanted: string): nat {
    if Named(path, wanted) then 3 else if NameStarts(path, wanted) then 2 else if HoldsRun(path, wanted) then 1 else 0
  }

  /** The code's tier is what the text says, for a query already folded. */
  lemma {:induction false} TierIsInTheText(path: string, wanted: string)
    requires Wanted(wanted) == wanted
    ensures MatchTier(path, wanted) == TextTier(path, wanted)
  {
    var name := NameThereIs(path);
    NameIsCut(path, name);
    NamedAsCoded(path, name, wanted);
    StartAsCoded(path, name, wanted);
    RunAsCoded(path, wanted);
  }

  /** Each is a case of the next. */
  lemma {:induction false} TiersAreNested(path: string, wanted: string)
    ensures Named(path, wanted) ==> NameStarts(path, wanted)
    ensures NameStarts(path, wanted) ==> HoldsRun(path, wanted)
  {
    if Named(path, wanted) {
      var name :| HasName(path, name) && Names(name, wanted);
      NamesAsCoded(name, wanted);
      StartAsCoded(path, name, wanted);
    }
    if NameStarts(path, wanted) {
      var name, rest :| HasName(path, name) && Begins(Lower(name), wanted, rest);
      var front := NameEndsPath(path, name);
      assert Surrounds(Lower(path), front, wanted, rest);
    }
  }

  // ---------------------------------------------------------------- the theorems

  /** The score, in full: ten thousand for each tier of the text, the best reading, and a hundredth off for each character. */
  lemma {:induction false} ScoreReadsTheText(path: string, query: string)
    requires Wanted(query) != ""
    ensures PathScore(path, query).Some? <==> Readable(Lower(path), Wanted(query))
    ensures PathScore(path, query).Some? ==>
              exists best :: IsBestReading(path, Wanted(query), best) &&
                PathScore(path, query).value == 100 * (10_000 * TextTier(path, Wanted(query)) + best) - |path|
  {
    var wanted := Wanted(query);
    WantedIsStable(query);
    TierIsInTheText(path, wanted);
    if Readable(Lower(path), wanted) {
      OptimumIsBest(path, wanted);
    }
  }

  lemma {:induction false} RunIsReadable(path: string, wanted: string)
    requires HoldsRun(path, wanted)
    ensures Readable(Lower(path), wanted)
  {
    RunAsCoded(path, wanted);
    var at: nat :| at <= |Lower(path)| && HoldsAt(Lower(path), wanted, at);
    RunReads(path, wanted, at);
  }

  /** `a` scores, and more than `b` does. */
  ghost predicate Outscores(a: string, b: string, query: string)
    requires PathScore(b, query).Some?
  {
    PathScore(a, query).Some? && PathScore(a, query).value > PathScore(b, query).value
  }

  /**
   * Of two paths, the one whose name is the query, with its extension or without, outscores every one whose name is not;
   * the one whose name starts with it every one whose does not; the one that holds it in one run every one that does not:
   * whatever else the two score, and in whatever case and spacing the query was typed.
   */
  lemma {:induction false} BetterNamesOutscore(a: string, b: string, query: string)
    requires Wanted(query) != "" && |query| <= 512 && |a| < 436_800 && PathScore(b, query).Some?
    ensures Named(a, Wanted(query)) && !Named(b, Wanted(query)) ==> Outscores(a, b, query)
    ensures NameStarts(a, Wanted(query)) && !NameStarts(b, Wanted(query)) ==> Outscores(a, b, query)
    ensures HoldsRun(a, Wanted(query)) && !HoldsRun(b, Wanted(query)) ==> Outscores(a, b, query)
  {
    var wanted := Wanted(query);
    TiersAreNested(a, wanted);
    TiersAreNested(b, wanted);
    if TextTier(a, wanted) > TextTier(b, wanted) {
      BetterTextOutscores(a, b, query);
    }
  }

  lemma {:induction false} BetterTextOutscores(a: string, b: string, query: string)
    requires Wanted(query) != "" && |query| <= 512 && |a| < 436_800 && PathScore(b, query).Some?
    requires TextTier(a, Wanted(query)) > TextTier(b, Wanted(query))
    ensures Outscores(a, b, query)
  {
    var wanted := Wanted(query);
    TiersAreNested(a, wanted);
    RunIsReadable(a, wanted);
    WantedIsStable(query);
    TierIsInTheText(a, wanted);
    TierIsInTheText(b, wanted);
    OptimumIsBest(a, wanted);
    OptimumIsBest(b, wanted);
    BetterTierWinsWithinCaps(a, b, query, Optimum(a, wanted).value, Optimum(b, wanted).value);
  }

  /** Two paths alike to the query, by their text and their best readings: the shorter outscores the longer. */
  lemma {:induction false} ShorterOutscores(a: string, b: string, query: string, best: int)
    requires Wanted(query) != "" && |a| < |b| && TextTier(a, Wanted(query)) == TextTier(b, Wanted(query))
    requires IsBestReading(a, Wanted(query), best) && IsBestReading(b, Wanted(query), best)
    ensures PathScore(b, query).Some? && Outscores(a, b, query)
  {
    ScoreReadsTheText(a, query);
    ScoreReadsTheText(b, query);
  }

  // ---------------------------------------------------------------- what a place is worth

  /** A word starts at `c`, after `before`: at the path's own start, after a separator, or at the hump of a camel. */
  predicate WordStarts(before: string, c: char) {
    || before == ""
    || before[|before| - 1] in {'/', '-', '_', '.', ' '}
    || (('a' <= before[|before| - 1] <= 'z' || '0' <= before[|before| - 1] <= '9') && 'A' <= c <= 'Z')
  }

  /** A place is worth eight where a word starts and three in the name, that is, where no slash is or follows, and one. */
  lemma {:induction false} PlaceIsWorth(before: string, c: char, after: string)
    ensures var path := before + ([c] + after);
            |before| < |path| &&
            Bonus(path, |before|) == (if WordStarts(before, c) then 8 else 0) + (if '/' in [c] + after then 0 else 3) + 1
  {
    var path := before + ([c] + after);
    var rest := [c] + after;
    assert path[|before|] == c && before == path[..|before|];
    forall k | |before| <= k < |path|
      ensures path[k] == rest[k - |before|] && path[k] in rest
    {
    }
    if '/' in rest {
      var k :| 0 <= k < |rest| && rest[k] == '/';
      assert path[|before| + k] == '/';
    }
  }

  predicate Adjoins(places: seq<nat>, k: int) {
    0 < k < |places| && places[k] == places[k - 1] + 1
  }

  /** The places of a reading that stand right after the one before. */
  ghost function Joined(places: seq<nat>): set<int> {
    set k | 0 < k < |places| && Adjoins(places, k)
  }

  ghost function BonusOf(path: string, places: seq<nat>): nat
    requires forall k :: 0 <= k < |places| ==> places[k] < |path|
  {
    if places == [] then 0 else Bonus(path, places[0]) + BonusOf(path, places[1..])
  }

  lemma {:induction false} BonusOfOneMore(path: string, places: seq<nat>, last: nat)
    requires last < |path| && forall k :: 0 <= k < |places| ==> places[k] < |path|
    ensures BonusOf(path, places + [last]) == BonusOf(path, places) + Bonus(path, last)
  {
    if places != [] {
      BonusOfOneMore(path, places[1..], last);
      assert (places + [last])[1..] == places[1..] + [last];
    } else {
      assert (places + [last])[1..] == [];
    }
  }

  lemma JoinedOneMore(front: seq<nat>, last: nat)
    ensures |Joined(front + [last])| == |Joined(front)| + if front != [] && last == front[|front| - 1] + 1 then 1 else 0
  {
    var places, n := front + [last], |front|;
    assert forall k :: k < n ==> (Adjoins(places, k) <==> Adjoins(front, k));
    assert Joined(places) == Joined(front) + if Adjoins(places, n) then {n} else {};
  }

  lemma {:induction false} PointsOfFirst(path: string, first: nat)
    requires first < |path|
    ensures Points(path, [first]) == Bonus(path, first)
  {
    assert [first][..0] == [];
  }

  /** A reading is worth what its places are, and ten more for each that stands right after the one before. */
  lemma {:induction false} ReadingIsWorth(path: string, places: seq<nat>)
    requires forall k :: 0 <= k < |places| ==> places[k] < |path|
    ensures Points(path, places) == BonusOf(path, places) + 10 * |Joined(places)|
  {
    if places == [] {
      assert Joined(places) == {};
    } else {
      var front, last := places[..|places| - 1], places[|places| - 1];
      assert front + [last] == places;
      ReadingIsWorth(path, front);
      BonusOfOneMore(path, front, last);
      JoinedOneMore(front, last);
      if front == [] {
        PointsOfFirst(path, last);
      } else {
        PointsOfOneMore(path, front, last);
      }
    }
  }

  // ---------------------------------------------------------------- the query as typed

  lemma {:induction false} WithoutSpaceOf(a: string, b: string)
    ensures WithoutSpace(a + b) == WithoutSpace(a) + WithoutSpace(b)
  {
    if a == "" {
      assert a + b == b;
    } else {
      var first := if IsSpace(a[0]) then "" else [a[0]];
      WithoutSpaceOf(a[1..], b);
      FirstKept(a + b);
      FirstKept(a);
      assert (a + b)[0] == a[0] && (a + b)[1..] == a[1..] + b;
      Associate(first, WithoutSpace(a[1..]), WithoutSpace(b));
    }
  }

  lemma {:induction false} FirstKept(s: string)
    requires s != ""
    ensures WithoutSpace(s) == (if IsSpace(s[0]) then "" else [s[0]]) + WithoutSpace(s[1..])
  {
  }

  /** A space more or less in the query, or a letter in the other case, changes no score. */
  lemma {:induction false} TypingDoesNotMatter(path: string, before: string, c: char, after: string)
    ensures IsSpace(c) ==> PathScore(path, before + ([c] + after)) == PathScore(path, before + after)
    ensures 'A' <= c <= 'Z' ==> PathScore(path, before + ([c] + after)) == PathScore(path, before + ([(c as int + 32) as char] + after))
  {
    WantedOf(before, [c] + after);
    WantedOf([c], after);
    WantedOf(before, after);
    if 'A' <= c <= 'Z' {
      var small := (c as int + 32) as char;
      WantedOf(before, [small] + after);
      WantedOf([small], after);
      assert Lower([small]) == [small] == Lower([c]);
    }
    if IsSpace(c) {
      assert Lower([c]) == [c] && WithoutSpace([c]) == WithoutSpace([c][1..]) == "";
      assert Wanted([c]) + Wanted(after) == Wanted(after);
    }
  }

  lemma {:induction false} WantedOf(a: string, b: string)
    ensures Wanted(a + b) == Wanted(a) + Wanted(b)
  {
    LowerOf(a, b);
    WithoutSpaceOf(Lower(a), Lower(b));
  }

  // ---------------------------------------------------------------- the order of a ranking

  /** Alike up to `k`, where the one ends or has the smaller character. */
  predicate SmallerAt(a: string, b: string, k: nat) {
    k < |b| && k <= |a| && a[..k] == b[..k] && (k == |a| || a[k] < b[k])
  }

  /** The order of strings by their code units. */
  ghost predicate Precedes(a: string, b: string) {
    exists k: nat :: SmallerAt(a, b, k)
  }

  lemma {:induction false} SmallerFurther(a: string, b: string, k: nat)
    requires a != "" && b != ""
    ensures SmallerAt(a, b, k + 1) <==> a[0] == b[0] && SmallerAt(a[1..], b[1..], k)
  {
    if k + 1 <= |a| && k + 1 <= |b| {
      assert a[..k + 1] == [a[0]] + a[1..][..k] && b[..k + 1] == [b[0]] + b[1..][..k];
    }
  }

  lemma SmallerSharesStart(a: string, b: string, k: nat)
    requires a != "" && b != ""
    ensures SmallerAt(a, b, k) && k > 0 ==> a[0] == b[0]
  {
    if SmallerAt(a, b, k) && k > 0 {
      assert a[..k][0] == b[..k][0];
    }
  }

  lemma {:induction false} LessIsPrecedes(a: string, b: string)
    ensures Less(a, b) <==> Precedes(a, b)
  {
    if b == "" || a == "" {
      assert b != "" && a == "" ==> SmallerAt(a, b, 0);
    } else if a[0] != b[0] {
      assert SmallerAt(a, b, 0) <==> a[0] < b[0];
      forall k: nat
        ensures SmallerAt(a, b, k) && k > 0 ==> a[0] == b[0]
      {
        SmallerSharesStart(a, b, k);
      }
    } else {
      LessIsPrecedes(a[1..], b[1..]);
      if Precedes(a, b) {
        var k: nat :| SmallerAt(a, b, k);
        SmallerFurther(a, b, k - 1);
      }
      if Precedes(a[1..], b[1..]) {
        var k: nat :| SmallerAt(a[1..], b[1..], k);
        SmallerFurther(a, b, k);
      }
    }
  }

  /** Of any two paths of a ranking the one in front has more points, or as many and no later a path. */
  lemma {:induction false} RankingInOrder(paths: seq<string>, query: string, j: nat, k: nat)
    requires j < k < |Ranking(paths, query)|
    ensures var ranked := Ranking(paths, query);
            && PathScore(ranked[j].path, query) == Some(ranked[j].points) && PathScore(ranked[k].path, query) == Some(ranked[k].points)
            && (|| ranked[j].points > ranked[k].points
                || (ranked[j].points == ranked[k].points &&
                    (ranked[j].path == ranked[k].path || Precedes(ranked[j].path, ranked[k].path))))
  {
    var ranked := Ranking(paths, query);
    RankingIsExact(paths, query, paths);
    assert ranked[j] in multiset(ranked) && ranked[k] in multiset(ranked);
    LessIsTotal(ranked[j].path, ranked[k].path);
    LessIsPrecedes(ranked[j].path, ranked[k].path);
  }
}
