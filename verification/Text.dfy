/** Lines and white space of ASCII text, as several of the models read it. */
module Text {
  import opened Wrappers

  predicate IsSpace(c: char) {
    c == ' ' || c == '\t' || c == '\n' || c == '\r' || c == '\U{0B}' || c == '\U{0C}'
  }

  function Trim(s: string): string {
    if s != "" && IsSpace(s[0]) then Trim(s[1..])
    else if s != "" && IsSpace(s[|s| - 1]) then Trim(s[..|s| - 1])
    else s
  }

  /** The first line of `s` ends at `at`. */
  predicate EndsLine(s: string, at: nat) {
    at < |s| && s[at] == '\n' && forall k :: 0 <= k < at ==> s[k] != '\n'
  }

  /** The first newline of `s`, or -1. */
  function NewlineIn(s: string): (at: int)
    ensures -1 <= at < |s|
    ensures at == -1 ==> forall k :: 0 <= k < |s| ==> s[k] != '\n'
    ensures at >= 0 ==> EndsLine(s, at)
  {
    if s == "" then -1
    else if s[0] == '\n' then 0
    else
      var at := NewlineIn(s[1..]);
      if at == -1 then -1 else at + 1
  }

  /** The lines of `s` that a newline ends. */
  function Lines(s: string): seq<string> {
    var at := NewlineIn(s);
    if at == -1 then [] else [s[..at]] + Lines(s[at + 1..])
  }

  /** What follows the last newline. */
  function Tail(s: string): (t: string)
    ensures '\n' !in t && |t| <= |s|
  {
    var at := NewlineIn(s);
    if at == -1 then s else Tail(s[at + 1..])
  }

  lemma {:induction false} OneFirstNewline(s: string, at: nat)
    requires EndsLine(s, at)
    ensures NewlineIn(s) == at
  {
    assert NewlineIn(s) >= at;
  }

  /** A text is its first ended line and then the lines of the rest. */
  lemma {:induction false} LinesSplit(s: string, at: nat, head: string, rest: string)
    requires EndsLine(s, at) && s[..at] == head && s[at + 1..] == rest
    ensures NewlineIn(s) == at && Lines(s) == [head] + Lines(rest) && Tail(s) == Tail(rest)
  {
    OneFirstNewline(s, at);
  }

  lemma CutBefore(a: string, b: string, at: nat)
    requires EndsLine(a, at)
    ensures EndsLine(a + b, at) && (a + b)[..at] == a[..at] && (a + b)[at + 1..] == a[at + 1..] + b
  {
  }

  lemma CutAfter(a: string, b: string, at: nat)
    requires '\n' !in a && EndsLine(b, at)
    ensures EndsLine(a + b, |a| + at) && (a + b)[..|a| + at] == a + b[..at] && (a + b)[|a| + at + 1..] == b[at + 1..]
  {
    forall k | 0 <= k < |a| + at ensures (a + b)[k] != '\n' {
      if k < |a| {
        assert (a + b)[k] == a[k];
      } else {
        assert (a + b)[k] == b[k - |a|];
      }
    }
  }

  lemma {:induction false} UnendedLine(s: string)
    requires '\n' !in s
    ensures Lines(s) == [] && Tail(s) == s
  {
  }

  /** Text that ends no line of its own only lengthens the first line of what follows. */
  lemma {:induction false} LinesAfter(a: string, b: string, at: nat)
    requires '\n' !in a && EndsLine(b, at)
    ensures Lines(a + b) == [a + b[..at]] + Lines(b[at + 1..]) && Tail(a + b) == Tail(b[at + 1..])
  {
    CutAfter(a, b, at);
    LinesSplit(a + b, |a| + at, a + b[..at], b[at + 1..]);
  }

  /** Reading `a` and then `b` with what `a` left over is reading `a + b`. */
  lemma {:induction false} LinesCompose(a: string, b: string)
    ensures Lines(a + b) == Lines(a) + Lines(Tail(a) + b)
    ensures Tail(a + b) == Tail(Tail(a) + b)
  {
    var at := NewlineIn(a);
    if at == -1 {
      assert Lines(a) == [] && Tail(a) == a;
    } else {
      LinesCompose(a[at + 1..], b);
      CutBefore(a, b, at);
      LinesSplit(a + b, at, a[..at], a[at + 1..] + b);
      LinesSplit(a, at, a[..at], a[at + 1..]);
      Associate([a[..at]], Lines(a[at + 1..]), Lines(Tail(a) + b));
    }
  }
}
