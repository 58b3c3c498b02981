/**
 * Newline-delimited framing (src/shared/protocol.ts): the incremental decoder, proved to see through any way
 * of cutting its input into chunks, and so to undo any run of `encodeFrame`.
 *
 * A codec stands for JSON: `parse` may refuse a line, `stringify` writes a value on one line with nothing around it.
 */
module FrameDecoder {
  import opened Text
  import opened Wrappers

  // ---------------------------------------------------------------- frames

  /** The frames on some lines: each trimmed, blank ones passed over. */
  function Frames(lines: seq<string>): seq<string> {
    if lines == [] then []
    else
      var last := Trim(lines[|lines| - 1]);
      Frames(lines[..|lines| - 1]) + (if last == "" then [] else [last])
  }

  lemma {:induction false} FramesCompose(a: seq<string>, b: seq<string>)
    ensures Frames(a + b) == Frames(a) + Frames(b)
  {
    if b == [] {
      assert a + b == a;
    } else {
      FramesCompose(a, b[..|b| - 1]);
      assert (a + b)[..|a + b| - 1] == a + b[..|b| - 1];
    }
  }

  // ---------------------------------------------------------------- values

  datatype Codec<!V> = Codec(stringify: V -> string, parse: string -> Option<V>)

  /** What the framing asks of JSON. */
  ghost predicate Faithful<V(!new)>(c: Codec<V>) {
    forall v {:trigger c.stringify(v)} ::
      c.parse(c.stringify(v)) == Some(v) && '\n' !in c.stringify(v) && c.stringify(v) != "" && Trim(c.stringify(v)) == c.stringify(v)
  }

  function EncodeFrame<V>(c: Codec<V>, v: V): string {
    c.stringify(v) + "\n"
  }

  /** Every frame parsed, in order, or None when one of them does not parse. */
  function Parsed<V>(c: Codec<V>, frames: seq<string>): Option<seq<V>> {
    if frames == [] then Some([])
    else
      var before := Parsed(c, frames[..|frames| - 1]);
      var last := c.parse(frames[|frames| - 1]);
      if before.None? || last.None? then None else Some(before.value + [last.value])
  }

  lemma {:induction false} ParsedCompose<V>(c: Codec<V>, a: seq<string>, b: seq<string>)
    ensures Parsed(c, a + b) ==
              if Parsed(c, a).None? || Parsed(c, b).None? then None else Some(Parsed(c, a).value + Parsed(c, b).value)
  {
    if b == [] {
      assert a + b == a;
      assert Parsed(c, a).Some? ==> Parsed(c, a).value + [] == Parsed(c, a).value;
    } else {
      var front := b[..|b| - 1];
      ParsedCompose(c, a, front);
      assert (a + b)[..|a + b| - 1] == a + front;
      if Parsed(c, a).Some? && Parsed(c, b).Some? {
        Associate(Parsed(c, a).value, Parsed(c, front).value, [c.parse(b[|b| - 1]).value]);
      }
    }
  }

  /** What a reader of the whole text gets: its non-blank ended lines, parsed. */
  function Reading<V>(c: Codec<V>, text: string): Option<seq<V>> {
    Parsed(c, Frames(Lines(text)))
  }

  function Prepend<V>(values: seq<V>, more: Option<seq<V>>): Option<seq<V>> {
    if more.None? then None else Some(values + more.value)
  }

  /** The values read, and the one on this line unless the line is blank; None when it does not parse. */
  function WithLine<V>(c: Codec<V>, values: seq<V>, line: string): Option<seq<V>> {
    if line == "" then Some(values)
    else
      var value := c.parse(line);
      if value.None? then None else Some(values + [value.value])
  }

  lemma PrependNothing<V>(more: Option<seq<V>>)
    ensures Prepend([], more) == more
  {
    if more.Some? {
      assert [] + more.value == more.value;
    }
  }

  // ---------------------------------------------------------------- the decoder

  datatype Outcome<V> = Values(values: seq<V>) | BadFrame | TooLong

  datatype Fed<V> = Fed(outcome: Outcome<V>, buffer: string)

  /** One chunk, given what was buffered before it. After either failure the buffer is empty. */
  function Feed<V>(c: Codec<V>, max: nat, buffer: string, chunk: string): Fed<V> {
    var values := Reading(c, buffer + chunk);
    var tail := Tail(buffer + chunk);
    if values.None? then Fed(BadFrame, "")
    else if |tail| > max then Fed(TooLong, "")
    else Fed(Values(values.value), tail)
  }

  function Join(parts: seq<string>): string {
    if parts == [] then "" else Join(parts[..|parts| - 1]) + parts[|parts| - 1]
  }

  class Decoder<V> {
    const codec: Codec<V>
    const maxFrameChars: nat
    var pending: seq<string>
    var pendingChars: nat

    ghost predicate Valid()
      reads this
    {
      pendingChars == |Join(pending)| && pendingChars <= maxFrameChars && '\n' !in Join(pending) &&
      (pendingChars == 0 ==> pending == [])
    }

    ghost function Buffered(): string
      reads this
    {
      Join(pending)
    }

    constructor (codec: Codec<V>, maxFrameChars: nat)
      ensures Valid() && Buffered() == "" && this.codec == codec && this.maxFrameChars == maxFrameChars
    {
      this.codec, this.maxFrameChars := codec, maxFrameChars;
      pending, pendingChars := [], 0;
    }

    /** The loop's standing: the values read so far and what is still to be read make up the whole text. */
    ghost predicate Midway(text: string, values: seq<V>, rest: string)
      reads this
    {
      && Reading(codec, text) == Prepend(values, Reading(codec, Buffered() + rest))
      && Tail(text) == Tail(Buffered() + rest)
    }

    method Decode(chunk: string) returns (outcome: Outcome<V>)
      requires Valid()
      modifies this
      ensures Valid() && Fed(outcome, Buffered()) == Feed(codec, maxFrameChars, old(Buffered()), chunk)
    {
      ghost var text := Buffered() + chunk;
      var values: seq<V> := [];
      var rest := chunk;
      PrependNothing(Reading(codec, text));
      var newline := NewlineIn(rest);
      while newline != -1
        invariant newline == NewlineIn(rest) && Valid() && Midway(text, values, rest)
        decreases |rest|
      {
        var more := TakeLine(rest, newline, values, text);
        if more.None? {
          return BadFrame;
        }
        values := more.value;
        rest := rest[newline + 1..];
        newline := NewlineIn(rest);
      }
      outcome := KeepTail(rest, values, text);
    }

    method TakeLine(rest: string, newline: nat, values: seq<V>, ghost text: string) returns (more: Option<seq<V>>)
      requires Valid() && EndsLine(rest, newline) && Midway(text, values, rest)
      modifies this
      ensures Valid() && Buffered() == ""
      ensures if more.None? then Reading(codec, text).None? else Midway(text, more.value, rest[newline + 1..])
    {
      OneMoreLine(codec, values, Buffered(), rest, newline);
      var head := rest[..newline];
      assert pending == [] ==> Join(pending) + head == head;
      var line := Trim(if pendingChars == 0 then head else Join(pending) + head);
      pending := [];
      pendingChars := 0;
      more := WithLine(codec, values, line);
      ghost var left := rest[newline + 1..];
      assert Buffered() + left == left;
    }

    method KeepTail(rest: string, values: seq<V>, ghost text: string) returns (outcome: Outcome<V>)
      requires Valid() && '\n' !in rest && Midway(text, values, rest)
      modifies this
      ensures Valid()
      ensures Reading(codec, text) == Some(values)
      ensures Fed(outcome, Buffered()) == if |Tail(text)| > maxFrameChars then Fed(TooLong, "") else Fed(Values(values), Tail(text))
    {
      UnendedLine(Buffered() + rest);
      assert values + [] == values;
      outcome := Buffer(rest, values);
    }

    method Buffer(rest: string, values: seq<V>) returns (outcome: Outcome<V>)
      requires Valid() && '\n' !in rest
      modifies this
      ensures Valid()
      ensures Fed(outcome, Buffered()) ==
                if |old(Buffered()) + rest| > maxFrameChars then Fed(TooLong, "") else Fed(Values(values), old(Buffered()) + rest)
    {
      if |rest| > 0 {
        pending := pending + [rest];
        pendingChars := pendingChars + |rest|;
        assert pending[..|pending| - 1] == old(pending);
      } else {
        assert Buffered() + rest == Buffered();
      }
      if pendingChars > maxFrameChars {
        pending := [];
        pendingChars := 0;
        return TooLong;
      }
      return Values(values);
    }
  }

  lemma FramesOfOneMore(done: seq<string>, line: string)
    ensures Frames(done + [line]) == Frames(done) + if Trim(line) == "" then [] else [Trim(line)]
  {
    assert (done + [line])[..|done|] == done;
  }

  lemma ParsedOne<V>(c: Codec<V>, frame: string)
    ensures Parsed(c, [frame]) == if c.parse(frame).None? then None else Some([c.parse(frame).value])
  {
    var frames := [frame];
    assert frames[..|frames| - 1] == [];
    assert frames[|frames| - 1] == frame;
    if c.parse(frame).Some? {
      assert [] + [c.parse(frame).value] == [c.parse(frame).value];
    }
  }

  lemma FramesOfLine(line: string, more: seq<string>)
    ensures Frames([line] + more) == (if Trim(line) == "" then [] else [Trim(line)]) + Frames(more)
  {
    FramesCompose([line], more);
    FramesOfOneMore([], line);
    assert [] + [line] == [line];
  }

  lemma OneFrame<V>(c: Codec<V>, values: seq<V>, line: string, frames: seq<string>)
    ensures Prepend(values, Parsed(c, (if line == "" then [] else [line]) + frames)) ==
              var more := WithLine(c, values, line); if more.None? then None else Prepend(more.value, Parsed(c, frames))
  {
    if line == "" {
      assert [] + frames == frames;
    } else {
      ParsedOne(c, line);
      ParsedCompose(c, [line], frames);
      if c.parse(line).Some? && Parsed(c, frames).Some? {
        Associate(values, [c.parse(line).value], Parsed(c, frames).value);
      }
    }
  }

  /** What one turn of the loop does to what is still to be read. */
  lemma OneMoreLine<V>(c: Codec<V>, values: seq<V>, buffer: string, rest: string, at: nat)
    requires '\n' !in buffer && EndsLine(rest, at)
    ensures Tail(buffer + rest) == Tail(rest[at + 1..])
    ensures Prepend(values, Reading(c, buffer + rest)) ==
              var more := WithLine(c, values, Trim(buffer + rest[..at]));
              if more.None? then None else Prepend(more.value, Reading(c, rest[at + 1..]))
  {
    var whole, lines := buffer + rest[..at], Lines(rest[at + 1..]);
    LinesAfter(buffer, rest, at);
    FramesOfLine(whole, lines);
    OneFrame(c, values, Trim(whole), Frames(lines));
  }

  // ---------------------------------------------------------------- any chunking

  /** Feeding chunks one after another; None once a chunk failed. */
  function FeedAll<V>(c: Codec<V>, max: nat, chunks: seq<string>): Option<(seq<V>, string)> {
    if chunks == [] then Some(([], ""))
    else
      var before := FeedAll(c, max, chunks[..|chunks| - 1]);
      if before.None? then None
      else
        var fed := Feed(c, max, before.value.1, chunks[|chunks| - 1]);
        if fed.outcome.Values? then Some((before.value.0 + fed.outcome.values, fed.buffer)) else None
  }

  lemma {:induction false} ChunkingIsInvisible<V>(c: Codec<V>, max: nat, chunks: seq<string>)
    requires FeedAll(c, max, chunks).Some?
    ensures Reading(c, Join(chunks)) == Some(FeedAll(c, max, chunks).value.0)
    ensures FeedAll(c, max, chunks).value.1 == Tail(Join(chunks)) && |Tail(Join(chunks))| <= max
  {
    if chunks != [] {
      var before := chunks[..|chunks| - 1];
      var chunk := chunks[|chunks| - 1];
      var prior := FeedAll(c, max, before);
      ChunkingIsInvisible(c, max, before);
      FeedReads(c, max, prior.value.1, chunk);
      ReadingComposes(c, Join(before), chunk);
    }
  }

  lemma FeedReads<V>(c: Codec<V>, max: nat, buffer: string, chunk: string)
    requires Feed(c, max, buffer, chunk).outcome.Values?
    ensures Reading(c, buffer + chunk) == Some(Feed(c, max, buffer, chunk).outcome.values)
    ensures Feed(c, max, buffer, chunk).buffer == Tail(buffer + chunk) && |Tail(buffer + chunk)| <= max
  {
  }

  /** What has arrived by some chunk can be read: every ended line parses and the unended one is within the cap. */
  predicate Readable<V>(c: Codec<V>, max: nat, text: string) {
    Reading(c, text).Some? && |Tail(text)| <= max
  }

  function ReadableBy<V>(c: Codec<V>, max: nat): seq<string> -> bool {
    chunks => Readable(c, max, Join(chunks))
  }

  /** So it was at the end of every chunk. */
  ghost predicate Always(chunks: seq<string>, holds: seq<string> -> bool) {
    forall n {:trigger chunks[..n]} :: 0 <= n <= |chunks| ==> holds(chunks[..n])
  }

  lemma AlwaysOneMore(before: seq<string>, chunk: string, holds: seq<string> -> bool)
    ensures Always(before + [chunk], holds) <==> Always(before, holds) && holds(before + [chunk])
  {
    var chunks := before + [chunk];
    assert chunks[..|chunks|] == chunks;
    assert forall n {:trigger before[..n]} {:trigger chunks[..n]} :: 0 <= n <= |before| ==> before[..n] == chunks[..n];
  }

  lemma JoinOneMore(before: seq<string>, chunk: string)
    ensures Join(before + [chunk]) == Join(before) + chunk
  {
    assert (before + [chunk])[..|before|] == before;
  }

  lemma OneMoreFed<V>(c: Codec<V>, max: nat, before: seq<string>, chunk: string)
    requires FeedAll(c, max, before).Some?
    ensures FeedAll(c, max, before + [chunk]).Some? <==> Readable(c, max, Join(before + [chunk]))
  {
    var (values, buffer) := FeedAll(c, max, before).value;
    ChunkingIsInvisible(c, max, before);
    FedIsReadable(c, max, Join(before), chunk);
    JoinOneMore(before, chunk);
    assert (before + [chunk])[..|before|] == before;
    assert FeedAll(c, max, before + [chunk]).Some? <==> Feed(c, max, buffer, chunk).outcome.Values?;
  }

  lemma FedIsReadable<V>(c: Codec<V>, max: nat, text: string, chunk: string)
    requires Reading(c, text).Some?
    ensures Feed(c, max, Tail(text), chunk).outcome.Values? <==> Readable(c, max, text + chunk)
  {
    ReadingComposes(c, text, chunk);
  }

  /** Feeding fails exactly when, at the end of some chunk, what has arrived by then cannot be read. */
  lemma {:induction false} FailsExactly<V>(c: Codec<V>, max: nat, chunks: seq<string>)
    ensures FeedAll(c, max, chunks).Some? <==> Always(chunks, ReadableBy(c, max))
  {
    if chunks == [] {
      assert Lines("") == [] && Tail("") == "";
    } else {
      var before, chunk := chunks[..|chunks| - 1], chunks[|chunks| - 1];
      assert chunks == before + [chunk];
      FailsExactly(c, max, before);
      AlwaysOneMore(before, chunk, ReadableBy(c, max));
      if FeedAll(c, max, before).Some? {
        OneMoreFed(c, max, before, chunk);
      }
    }
  }

  function EncodeAll<V>(c: Codec<V>, vs: seq<V>): string {
    if vs == [] then "" else EncodeFrame(c, vs[0]) + EncodeAll(c, vs[1..])
  }

  function Strings<V>(c: Codec<V>, vs: seq<V>): seq<string> {
    if vs == [] then [] else [c.stringify(vs[0])] + Strings(c, vs[1..])
  }

  lemma {:induction false} EncodedLines<V(!new)>(c: Codec<V>, vs: seq<V>)
    requires Faithful(c)
    ensures Lines(EncodeAll(c, vs)) == Strings(c, vs) && Tail(EncodeAll(c, vs)) == ""
  {
    if vs != [] {
      EncodedLines(c, vs[1..]);
      var line, rest := c.stringify(vs[0]), EncodeAll(c, vs[1..]);
      var text := EncodeAll(c, vs);
      assert text == line + "\n" + rest;
      assert text[..|line|] == line && text[|line| + 1..] == rest;
      LinesSplit(text, |line|, line, rest);
    }
  }

  lemma {:induction false} StringsParse<V(!new)>(c: Codec<V>, vs: seq<V>)
    requires Faithful(c)
    ensures Frames(Strings(c, vs)) == Strings(c, vs) && Parsed(c, Strings(c, vs)) == Some(vs)
  {
    if vs != [] {
      var s := c.stringify(vs[0]);
      StringsParse(c, vs[1..]);
      FramesCompose([s], Strings(c, vs[1..]));
      ParsedCompose(c, [s], Strings(c, vs[1..]));
      FramesOfOneMore([], s);
      assert [] + [s] == [s];
      ParsedOne(c, s);
      assert [vs[0]] + vs[1..] == vs;
    }
  }

  lemma {:induction false} PrefixOfLines(a: string, b: string)
    ensures |Lines(a)| <= |Lines(a + b)| && Lines(a) == Lines(a + b)[..|Lines(a)|]
    ensures |Lines(a)| < |Lines(a + b)| ==> |Tail(a)| <= |Lines(a + b)[|Lines(a)|]|
    ensures |Lines(a)| == |Lines(a + b)| ==> |Tail(a)| <= |Tail(a + b)|
  {
    LinesCompose(a, b);
    var at := NewlineIn(b);
    if at == -1 {
      UnendedLine(Tail(a) + b);
    } else {
      LinesAfter(Tail(a), b, at);
    }
  }

  /**
   * The round trip: any run of frames, each within the cap, cut into any chunks at all, comes out as the
   * values that went in, with nothing refused and nothing left over.
   */
  lemma {:induction false} DecodeUndoesEncode<V(!new)>(c: Codec<V>, max: nat, vs: seq<V>, chunks: seq<string>)
    requires Faithful(c) && (forall v :: v in vs ==> |c.stringify(v)| <= max) && Join(chunks) == EncodeAll(c, vs)
    ensures FeedAll(c, max, chunks) == Some((vs, ""))
  {
    assert Reading(c, Join(chunks)) == Some(vs) && Tail(Join(chunks)) == "" by {
      EncodedLines(c, vs);
      StringsParse(c, vs);
    }
    assert Join(chunks) + "" == Join(chunks);
    NothingIsRefused(c, max, vs, chunks, "");
    ChunkingIsInvisible(c, max, chunks);
  }

  lemma {:induction false} NothingIsRefused<V(!new)>(c: Codec<V>, max: nat, vs: seq<V>, chunks: seq<string>, rest: string)
    requires Faithful(c) && (forall v :: v in vs ==> |c.stringify(v)| <= max) && Join(chunks) + rest == EncodeAll(c, vs)
    ensures FeedAll(c, max, chunks).Some?
  {
    if chunks != [] {
      var before := chunks[..|chunks| - 1];
      var chunk := chunks[|chunks| - 1];
      assert Join(before) + (chunk + rest) == EncodeAll(c, vs);
      NothingIsRefused(c, max, vs, before, chunk + rest);
      ChunkingIsInvisible(c, max, before);
      PrefixParses(c, max, vs, Join(chunks), rest);
      ReadingComposes(c, Join(before), chunk);
      FeedAccepts(c, max, FeedAll(c, max, before).value.1, chunk);
    }
  }

  lemma FeedAccepts<V>(c: Codec<V>, max: nat, buffer: string, chunk: string)
    requires Reading(c, buffer + chunk).Some? && |Tail(buffer + chunk)| <= max
    ensures Feed(c, max, buffer, chunk).outcome.Values?
  {
  }

  /** Reading on from what was left over misses nothing and repeats nothing. */
  lemma ReadingComposes<V>(c: Codec<V>, a: string, b: string)
    ensures Tail(a + b) == Tail(Tail(a) + b)
    ensures Reading(c, a + b) == if Reading(c, a).None? then None else Prepend(Reading(c, a).value, Reading(c, Tail(a) + b))
  {
    LinesCompose(a, b);
    FramesCompose(Lines(a), Lines(Tail(a) + b));
    ParsedCompose(c, Frames(Lines(a)), Frames(Lines(Tail(a) + b)));
  }

  /** Any prefix of encoded frames parses as far as it goes, and its unfinished line is within the cap. */
  lemma PrefixParses<V(!new)>(c: Codec<V>, max: nat, vs: seq<V>, a: string, b: string)
    requires Faithful(c) && (forall v :: v in vs ==> |c.stringify(v)| <= max) && a + b == EncodeAll(c, vs)
    ensures Parsed(c, Frames(Lines(a))).Some? && |Tail(a)| <= max
  {
    EncodedLines(c, vs);
    PrefixOfLines(a, b);
    var n := |Lines(a)|;
    StringsAt(c, vs);
    assert Lines(a) == Strings(c, vs)[..n];
    StringsOfPrefix(c, vs, n);
    StringsParse(c, vs[..n]);
  }

  lemma StringsAt<V>(c: Codec<V>, vs: seq<V>)
    ensures |Strings(c, vs)| == |vs| && forall k :: 0 <= k < |vs| ==> Strings(c, vs)[k] == c.stringify(vs[k])
  {
  }

  lemma StringsOfPrefix<V>(c: Codec<V>, vs: seq<V>, n: nat)
    requires n <= |vs|
    ensures |Strings(c, vs)| == |vs| && Strings(c, vs)[..n] == Strings(c, vs[..n])
  {
    StringsAt(c, vs);
    StringsAt(c, vs[..n]);
  }
}
