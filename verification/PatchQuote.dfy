/**
 * A path as git quotes it and as the parser reads it (src/shared/patch.ts): the escapes are undone one kind after another,
 * so that a `t` or `n` that stands behind a backslash in the path itself is taken for an escape.
 */
module PatchQuote {
  import opened Patch
  import opened PatchPrint
  import opened Wrappers

  const TAB := "\t"
  const BREAK := "\n"
  const QUOTE := "\""
  const SLASH := "\\"

  /** One character as it stands once the first `k` kinds of escape are undone: tabs, line breaks, quotes, backslashes. */
  function Piece(c: char, k: nat): (piece: string)
    ensures piece != ""
  {
    if c == '\t' then (if k >= 1 then TAB else SLASH + "t")
    else if c == '\n' then (if k >= 2 then BREAK else SLASH + "n")
    else if c == '\"' then (if k >= 3 then QUOTE else SLASH + QUOTE)
    else if c == '\\' then (if k >= 4 then SLASH else SLASH + SLASH)
    else [c]
  }

  predicate Behind(path: string, c: char) {
    |path| >= 2 && path[0] == '\\' && path[1] == c
  }

  /** The whole path so: what stood behind a backslash of its own goes with the escapes of its letter. */
  function Stage(path: string, k: nat): string {
    if path == "" then ""
    else if k >= 1 && Behind(path, 't') then SLASH + TAB + Stage(path[2..], k)
    else if k >= 2 && Behind(path, 'n') then SLASH + BREAK + Stage(path[2..], k)
    else Piece(path[0], k) + Stage(path[1..], k)
  }

  /** As git writes a path that needs quoting. */
  function Quoted(path: string): string {
    QUOTE + Stage(path, 0) + QUOTE
  }

  // ---------------------------------------------------------------- one kind of escape

  lemma {:induction false} Match(rest: string, c: char, to: char)
    ensures Unescape([('\\'), c] + rest, c, to) == [to] + Unescape(rest, c, to)
  {
    assert ([('\\'), c] + rest)[2..] == rest;
  }

  lemma {:induction false} NoMatch(first: char, rest: string, c: char, to: char)
    requires first != '\\' || rest == "" || rest[0] != c
    ensures Unescape([first] + rest, c, to) == [first] + Unescape(rest, c, to)
  {
    assert ([first] + rest)[1..] == rest;
  }

  /** How what is left begins: with nothing an escape of `c` could end in. */
  predicate Begins(text: string, c: char) {
    text != "" && text[0] == c
  }

  lemma {:induction false} StageBegins(path: string, k: nat)
    requires path != ""
    ensures Stage(path, k) != ""
    ensures k < 3 ==> !Begins(Stage(path, k), '\"')
    ensures k <= 1 && path[0] != 'n' ==> !Begins(Stage(path, k), 'n')
    ensures k == 0 && path[0] != 't' ==> !Begins(Stage(path, k), 't')
  {
  }

  lemma {:induction false} TabsPass(path: string)
    ensures Unescape(Stage(path, 0), 't', '\t') == Stage(path, 1)
  {
    if path != "" {
      var c, rest := path[0], path[1..];
      TabsPass(rest);
      if c == '\t' {
        Match(Stage(rest, 0), 't', '\t');
      } else if Behind(path, 't') {
        TabsPass(path[2..]);
        TabsBehind(path);
      } else {
        if rest != "" {
          StageBegins(rest, 0);
        }
        OtherPass(c, Piece(c, 0), Stage(rest, 0), 't', '\t');
      }
    }
  }

  lemma {:induction false} TabsBehind(path: string)
    requires Behind(path, 't')
    ensures Unescape(Stage(path, 0), 't', '\t') == SLASH + TAB + Unescape(Stage(path[2..], 0), 't', '\t')
  {
    var rest := path[2..];
    assert path[1..][1..] == rest && path[1..][0] == 't';
    assert Stage(path, 0) == SLASH + SLASH + (['t'] + Stage(rest, 0));
    assert Stage(path, 0) == ['\\'] + (['\\', 't'] + Stage(rest, 0));
    NoMatch('\\', ['\\', 't'] + Stage(rest, 0), 't', '\t');
    Match(Stage(rest, 0), 't', '\t');
  }

  /** A piece of one or two characters no escape of `c` begins in. */
  lemma {:induction false} OtherPass(first: char, piece: string, rest: string, c: char, to: char)
    requires 1 <= |piece| <= 2 && c != '\\'
    requires piece[|piece| - 1] == '\\' ==> !Begins(rest, c)
    requires |piece| == 2 && piece[0] == '\\' ==> piece[1] != c
    ensures Unescape(piece + rest, c, to) == piece + Unescape(rest, c, to)
  {
    if |piece| == 1 {
      NoMatch(piece[0], rest, c, to);
      assert piece == [piece[0]];
    } else {
      NoMatch(piece[0], [piece[1]] + rest, c, to);
      NoMatch(piece[1], rest, c, to);
      assert piece + rest == [piece[0]] + ([piece[1]] + rest);
      assert piece + Unescape(rest, c, to) == [piece[0]] + ([piece[1]] + Unescape(rest, c, to));
    }
  }

  lemma {:induction false} BreaksPass(path: string)
    ensures Unescape(Stage(path, 1), 'n', '\n') == Stage(path, 2)
  {
    if path != "" {
      var c, rest := path[0], path[1..];
      if Behind(path, 't') {
        BreaksPass(path[2..]);
        OtherPass(c, SLASH + TAB, Stage(path[2..], 1), 'n', '\n');
      } else if Behind(path, 'n') {
        BreaksPass(path[2..]);
        BreaksBehind(path);
      } else if c == '\n' {
        BreaksPass(rest);
        Match(Stage(rest, 1), 'n', '\n');
      } else {
        BreaksPass(rest);
        if rest != "" {
          StageBegins(rest, 1);
        }
        OtherPass(c, Piece(c, 1), Stage(rest, 1), 'n', '\n');
      }
    }
  }

  lemma {:induction false} BreaksBehind(path: string)
    requires Behind(path, 'n')
    ensures Unescape(Stage(path, 1), 'n', '\n') == SLASH + BREAK + Unescape(Stage(path[2..], 1), 'n', '\n')
  {
    var rest := path[2..];
    assert path[1..][1..] == rest && path[1..][0] == 'n';
    assert Stage(path[1..], 1) == ['n'] + Stage(rest, 1);
    assert Stage(path, 1) == SLASH + SLASH + (['n'] + Stage(rest, 1));
    assert Stage(path, 1) == ['\\'] + (['\\', 'n'] + Stage(rest, 1));
    NoMatch('\\', ['\\', 'n'] + Stage(rest, 1), 'n', '\n');
    Match(Stage(rest, 1), 'n', '\n');
  }

  lemma {:induction false} QuotesPass(path: string)
    ensures Unescape(Stage(path, 2), '\"', '\"') == Stage(path, 3)
  {
    if path != "" {
      var c, rest := path[0], path[1..];
      if Behind(path, 't') {
        QuotesPass(path[2..]);
        OtherPass(c, SLASH + TAB, Stage(path[2..], 2), '\"', '\"');
      } else if Behind(path, 'n') {
        QuotesPass(path[2..]);
        OtherPass(c, SLASH + BREAK, Stage(path[2..], 2), '\"', '\"');
      } else if c == '\"' {
        QuotesPass(rest);
        Match(Stage(rest, 2), '\"', '\"');
      } else {
        QuotesPass(rest);
        if rest != "" {
          StageBegins(rest, 2);
        }
        OtherPass(c, Piece(c, 2), Stage(rest, 2), '\"', '\"');
      }
    }
  }

  lemma {:induction false} SlashesBehind(path: string)
    requires (Behind(path, 't') || Behind(path, 'n')) && Unescape(Stage(path[2..], 3), '\\', '\\') == Stage(path[2..], 4)
    ensures Unescape(Stage(path, 3), '\\', '\\') == Stage(path, 4)
  {
    var letter := if path[1] == 't' then '\t' else '\n';
    var rest := path[2..];
    assert Stage(path, 3) == ['\\'] + ([letter] + Stage(rest, 3));
    assert Stage(path, 4) == ['\\'] + ([letter] + Stage(rest, 4));
    NoMatch('\\', [letter] + Stage(rest, 3), '\\', '\\');
    NoMatch(letter, Stage(rest, 3), '\\', '\\');
  }

  lemma {:induction false} SlashesPass(path: string)
    ensures Unescape(Stage(path, 3), '\\', '\\') == Stage(path, 4)
  {
    if path != "" {
      var c, rest := path[0], path[1..];
      if Behind(path, 't') || Behind(path, 'n') {
        SlashesPass(path[2..]);
        SlashesBehind(path);
      } else if c == '\\' {
        SlashesPass(rest);
        Match(Stage(rest, 3), '\\', '\\');
      } else {
        SlashesPass(rest);
        NoMatch(c, Stage(rest, 3), '\\', '\\');
      }
    }
  }

  // ---------------------------------------------------------------- the theorem

  /** What comes back at one place: a tab or a line break for a `t` or `n` behind a backslash, or what was there. */
  predicate BackAt(path: string, back: string, i: int)
    requires 0 <= i < |path| == |back|
  {
    back[i] == if i > 0 && path[i - 1] == '\\' && path[i] == 't' then '\t'
               else if i > 0 && path[i - 1] == '\\' && path[i] == 'n' then '\n'
               else path[i]
  }

  predicate ReadAs(path: string, back: string) {
    |back| == |path| && forall i :: 0 <= i < |path| ==> BackAt(path, back, i)
  }

  predicate Escaping(path: string) {
    exists i :: 0 < i < |path| && path[i - 1] == '\\' && (path[i] == 't' || path[i] == 'n')
  }

  lemma {:induction false} LastStage(path: string)
    ensures ReadAs(path, Stage(path, 4))
  {
    if path != "" {
      var n := if Behind(path, 't') || Behind(path, 'n') then 2 else 1;
      LastStage(path[n..]);
      MoreReadAs(path, n, Stage(path, 4), Stage(path[n..], 4));
    }
  }

  /** What is read of the rest is read so behind what comes first, unless a backslash came right before it. */
  lemma MoreReadAs(path: string, n: nat, back: string, rest: string)
    requires n <= |path| && n <= |back| && back[n..] == rest && ReadAs(path[n..], rest)
    requires forall i :: 0 <= i < n ==> |back| == |path| ==> BackAt(path, back, i)
    requires n > 0 && n < |path| && path[n - 1] == '\\' ==> path[n] != 't' && path[n] != 'n'
    ensures ReadAs(path, back)
  {
    forall i | n <= i < |path|
      ensures BackAt(path, back, i)
    {
      assert BackAt(path[n..], rest, i - n);
    }
  }

  lemma {:induction false} QuotedIsLastStage(path: string)
    ensures Unquote(Quoted(path)) == Stage(path, 4)
  {
    var quoted := Quoted(path);
    assert quoted[..1] == QUOTE && quoted[|quoted| - 1..] == QUOTE && quoted[1..|quoted| - 1] == Stage(path, 0);
    TabsPass(path);
    BreaksPass(path);
    QuotesPass(path);
    SlashesPass(path);
  }

  lemma ComesBackExactly(path: string, back: string)
    requires ReadAs(path, back)
    ensures back == path <==> !Escaping(path)
  {
    if Escaping(path) {
      var i :| 0 < i < |path| && path[i - 1] == '\\' && (path[i] == 't' || path[i] == 'n');
      assert BackAt(path, back, i);
    } else {
      forall i | 0 <= i < |path|
        ensures back[i] == path[i]
      {
        assert BackAt(path, back, i);
      }
    }
  }

  /**
   * Any path, quoted and read, comes back with a tab for each `t` and a line break for each `n` that stands right behind a
   * backslash; so it comes back as it was exactly when none does.
   */
  lemma {:induction false} QuotedIsRead(path: string)
    ensures ReadAs(path, Unquote(Quoted(path)))
    ensures Unquote(Quoted(path)) == path <==> !Escaping(path)
  {
    QuotedIsLastStage(path);
    LastStage(path);
    ComesBackExactly(path, Stage(path, 4));
  }

  // ---------------------------------------------------------------- quoted headers

  /** A path as the parser has it once it was quoted: see `QuotedIsRead`. */
  function AsRead(path: string): string {
    Stage(path, 4)
  }

  /** No tab here, and no quote but behind a backslash. */
  predicate GuardedAt(text: string, i: int)
    requires 0 <= i < |text|
  {
    text[i] != '\t' && (text[i] == '\"' ==> i > 0 && text[i - 1] == '\\')
  }

  predicate Guarded(text: string) {
    forall i :: 0 <= i < |text| ==> GuardedAt(text, i)
  }

  lemma GuardedBoth(a: string, b: string)
    requires Guarded(a) && Guarded(b)
    ensures Guarded(a + b)
  {
    forall i | 0 <= i < |a + b|
      ensures GuardedAt(a + b, i)
    {
      assert if i < |a| then GuardedAt(a, i) else GuardedAt(b, i - |a|);
    }
  }

  lemma PieceIsGuarded(c: char)
    ensures Guarded(Piece(c, 0))
  {
  }

  lemma {:induction false} QuotedInside(path: string)
    ensures Guarded(Stage(path, 0))
  {
    if path != "" {
      QuotedInside(path[1..]);
      PieceIsGuarded(path[0]);
      GuardedBoth(Piece(path[0], 0), Stage(path[1..], 0));
    }
  }

  predicate PartedAt(s: string, k: int) {
    0 <= k <= |s| - 3 && s[k] == '\"' && s[k + 1] == ' ' && s[k + 2] == '\"'
  }

  lemma PartedIsParted(s: string, k: nat)
    requires k <= |s| - 3
    ensures PartedAt(s, k) <==> s[k..k + 3] == "\" \""
  {
    var part := s[k..k + 3];
    assert part[0] == s[k] && part[1] == s[k + 1] && part[2] == s[k + 2];
  }

  lemma {:induction false} LastBetween(s: string, from: int, at: nat)
    requires at <= from <= |s| - 3 && PartedAt(s, at)
    requires forall k {:trigger PartedAt(s, k)} :: at < k <= from ==> !PartedAt(s, k)
    ensures LastAt(s, "\" \"", from) == at
    decreases from
  {
    PartedIsParted(s, from);
    if from > at {
      assert !PartedAt(s, from);
      LastBetween(s, from - 1, at);
    }
  }

  /** Two quoted paths of a header part where the first ends. */
  lemma {:induction false} HeaderParts(first: string, second: string)
    requires Guarded(second) && second != "" && second[0] != ' '
    ensures var rest := QUOTE + first + QUOTE + " " + (QUOTE + second + QUOTE);
            |rest| >= 5 && LastAt(rest, "\" \"", |rest| - 4) == |first| + 1
  {
    var rest := QUOTE + first + QUOTE + " " + (QUOTE + second + QUOTE);
    var at := |first| + 1;
    assert forall i :: 0 <= i < |second| ==> rest[at + 3 + i] == second[i];
    forall k | at < k <= |rest| - 4
      ensures !PartedAt(rest, k)
    {
      if k >= at + 2 {
        assert rest[k + 2] == second[k - at - 1] && GuardedAt(second, k - at - 1);
      }
    }
    LastBetween(rest, |rest| - 4, at);
  }

  /** A plain character in front changes nothing about the rest. */
  lemma {:induction false} PlainFirst(c: char, path: string, k: nat)
    requires c != '\t' && c != '\n' && c != '\"' && c != '\\'
    ensures Stage([c] + path, k) == [c] + Stage(path, k)
  {
    assert ([c] + path)[1..] == path;
  }

  lemma {:induction false} MarkFirst(mark: char, path: string, k: nat)
    requires mark == 'a' || mark == 'b'
    ensures Stage([mark, '/'] + path, k) == [mark, '/'] + Stage(path, k)
  {
    PlainFirst('/', path, k);
    PlainFirst(mark, "/" + path, k);
    assert [mark, '/'] + path == [mark] + ("/" + path);
    assert [mark, '/'] + Stage(path, k) == [mark] + ("/" + Stage(path, k));
  }

  lemma {:induction false} StrippedStage(mark: string, path: string)
    requires mark == "a/" || mark == "b/"
    ensures Stage(mark + path, 4) == mark + Stage(path, 4) && Strip(Stage(mark + path, 4)) == Stage(path, 4)
    ensures Stage(mark + path, 0) == mark + Stage(path, 0)
  {
    assert mark == [mark[0], '/'];
    MarkFirst(mark[0], path, 0);
    MarkFirst(mark[0], path, 4);
    StripMark(mark, Stage(path, 4));
  }

  lemma StripMark(mark: string, path: string)
    requires mark == "a/" || mark == "b/"
    ensures Strip(mark + path) == path
  {
    assert (mark + path)[..2] == mark && (mark + path)[2..] == path;
  }

  lemma {:induction false} HeaderOfBoth(first: string, second: string)
    requires Guarded(second) && second != "" && second[0] != ' '
    ensures HeaderPaths(QUOTE + first + QUOTE + " " + (QUOTE + second + QUOTE))
         == PathsFrom(Strip(Unquote(QUOTE + second + QUOTE)), Strip(Unquote(QUOTE + first + QUOTE)))
  {
    HeaderParts(first, second);
    HeaderOfQuoted(QUOTE + first + QUOTE + " " + (QUOTE + second + QUOTE), first, second);
  }

  /** What is inside the quotes of a marked path, and what it is read as. */
  lemma {:induction false} QuotedMark(mark: string, path: string) returns (inside: string)
    requires mark == "a/" || mark == "b/"
    ensures Quoted(mark + path) == QUOTE + inside + QUOTE && Guarded(inside) && inside != "" && inside[0] != ' '
    ensures Strip(Unquote(QUOTE + inside + QUOTE)) == AsRead(path) && Unquote(QUOTE + inside + QUOTE)[..1] == mark[..1]
  {
    inside := Stage(mark + path, 0);
    StrippedStage(mark, path);
    QuotedInside(mark + path);
    QuotedIsLastStage(mark + path);
    assert (mark + Stage(path, 4))[..1] == mark[..1];
  }

  /** A header of two quoted paths is read as both of them, each as it comes back from its quotes. */
  lemma {:induction false} QuotedHeader(older: string, path: string)
    ensures HeaderPaths(Quoted("a/" + older) + " " + Quoted("b/" + path)) == PathsFrom(AsRead(path), AsRead(older))
  {
    var first := QuotedMark("a/", older);
    var second := QuotedMark("b/", path);
    HeaderOfBoth(first, second);
  }

  lemma {:induction false} HeaderBetween(rest: string, between: nat)
    requires |rest| >= 5 && StartsWith(rest, "\"") && EndsWith(rest, "\"") && LastAt(rest, "\" \"", |rest| - 4) == between >= 1
    ensures HeaderPaths(rest)
              == PathsFrom(Strip(Unquote("\"" + rest[between + 3..|rest| - 1] + "\"")), Strip(Unquote("\"" + rest[1..between] + "\"")))
  {
  }

  lemma {:induction false} HeaderOfQuoted(rest: string, first: string, second: string)
    requires rest == QUOTE + first + QUOTE + " " + (QUOTE + second + QUOTE) && |rest| >= 5
    requires LastAt(rest, "\" \"", |rest| - 4) == |first| + 1
    ensures HeaderPaths(rest) == PathsFrom(Strip(Unquote(QUOTE + second + QUOTE)), Strip(Unquote(QUOTE + first + QUOTE)))
  {
    assert rest[..1] == "\"" && rest[|rest| - 1..] == "\"";
    InsideQuotes(rest, first, second);
    HeaderBetween(rest, |first| + 1);
  }

  lemma InsideQuotes(rest: string, first: string, second: string)
    requires rest == QUOTE + first + QUOTE + " " + (QUOTE + second + QUOTE)
    ensures |rest| == |first| + |second| + 5 && rest[1..|first| + 1] == first && rest[|first| + 4..|rest| - 1] == second
  {
  }

  lemma {:induction false} NoTabBefore(inside: string)
    requires Guarded(inside)
    ensures BeforeTab(QUOTE + inside + QUOTE) == QUOTE + inside + QUOTE
  {
    var text := QUOTE + inside + QUOTE;
    forall i | 0 <= i < |text|
      ensures text[i] != '\t'
    {
      if 0 < i <= |inside| {
        assert text[i] == inside[i - 1] && GuardedAt(inside, i - 1);
      }
    }
    UpToTab(text, "");
    assert text + "" == text;
  }

  /** So is the path of a `---` or `+++` line. */
  lemma {:induction false} QuotedSide(start: string, mark: string, path: string)
    requires |start| == 4 && (mark == "a/" || mark == "b/")
    ensures SidePath(start + Quoted(mark + path)) == Some(AsRead(path))
  {
    var inside := QuotedMark(mark, path);
    var raw := QUOTE + inside + QUOTE;
    assert (start + raw)[4..] == raw;
    NoTabBefore(inside);
    assert Unquote(raw)[..1][0] == mark[0];
  }
}
