/**
 * The invitation link (src/shared/invitation.ts): printed, found again inside whatever it was pasted into, and read
 * back as the invitation it was printed from.
 *
 * Text is a sequence of Unicode scalar values.
 */
module Invitations {
  import opened FormUrl
  import opened Wrappers

  datatype Invitation = Invitation(origin: string, relay: Option<string>, project: string, from: string)

  const VERSION := "1"
  const PREFIX := "teamree://join?"
  const PAGE_PREFIX := "https://teamree.us/join#"
  const WWW_PREFIX := "https://www.teamree.us/join#"

  // ---------------------------------------------------------------- printing

  function FieldPairs(i: Invitation): (pairs: seq<Pair>)
    ensures pairs != [] && pairs[|pairs| - 1] == Pair("from", i.from)
  {
    [Pair("v", VERSION), Pair("origin", i.origin)] +
    (if i.relay.Some? then [Pair("relay", i.relay.value)] else []) +
    [Pair("project", i.project), Pair("from", i.from)]
  }

  /** A query that does not end in a full stop, which would be taken for a sentence's. */
  function Terminated(query: string): string {
    if query != "" && query[|query| - 1] == '.' then query[..|query| - 1] + "%2E" else query
  }

  function PrefixOf(page: bool): string {
    if page then PAGE_PREFIX else PREFIX
  }

  function FormatInvitation(i: Invitation, page: bool): string {
    PrefixOf(page) + Terminated(Form(FieldPairs(i)))
  }

  // ---------------------------------------------------------------- finding

  /** White space as JavaScript's `\s` and `trim` have it. */
  predicate IsWhite(c: char) {
    || '\t' <= c <= '\r' || c == ' ' || c == '\U{A0}' || c == '\U{1680}' || '\U{2000}' <= c <= '\U{200A}'
    || c == '\U{2028}' || c == '\U{2029}' || c == '\U{202F}' || c == '\U{205F}' || c == '\U{3000}' || c == '\U{FEFF}'
  }

  /** Punctuation that may follow a link without being part of it. */
  predicate Peelable(c: char) {
    c in ">)\"'`].,;:!?"
  }

  function Small(c: char): char {
    if 'A' <= c <= 'Z' then (c as int + 32) as char else c
  }

  /** `text` has `part` at `i`, in either case. */
  predicate HasAt(text: string, i: nat, part: string) {
    i + |part| <= |text| && forall k :: 0 <= k < |part| ==> Small(text[i + k]) == part[k]
  }

  /** The length of the prefix that stands at `i`, or 0. */
  function PrefixAt(raw: string, i: nat): nat {
    if HasAt(raw, i, PREFIX) then |PREFIX|
    else if HasAt(raw, i, WWW_PREFIX) then |WWW_PREFIX|
    else if HasAt(raw, i, PAGE_PREFIX) then |PAGE_PREFIX|
    else 0
  }

  /** The first place from `i` on where a prefix stands, or the length. */
  function FirstPrefix(raw: string, i: nat): (at: nat)
    requires i <= |raw|
    ensures i <= at <= |raw|
    ensures forall k :: i <= k < at ==> PrefixAt(raw, k) == 0
    ensures at < |raw| ==> PrefixAt(raw, at) > 0
    decreases |raw| - i
  {
    if i == |raw| || PrefixAt(raw, i) > 0 then i else FirstPrefix(raw, i + 1)
  }

  function ToWhite(s: string): string {
    if s == "" || IsWhite(s[0]) then "" else [s[0]] + ToWhite(s[1..])
  }

  function Peeled(token: string): string {
    if token != "" && Peelable(token[|token| - 1]) then Peeled(token[..|token| - 1]) else token
  }

  /** The fields of the link inside a message, as its query spells them. */
  function FindInvitation(raw: string): Option<string> {
    var at := FirstPrefix(raw, 0);
    if at == |raw| then None
    else
      var token := Peeled(ToWhite(raw[at..]));
      var length := PrefixAt(raw, at);
      if |token| <= length then None else Some(token[length..])
  }

  // ---------------------------------------------------------------- reading

  function Trimmed(s: string): string {
    if s != "" && IsWhite(s[0]) then Trimmed(s[1..])
    else if s != "" && IsWhite(s[|s| - 1]) then Trimmed(s[..|s| - 1])
    else s
  }

  predicate HasControl(s: string) {
    exists i :: 0 <= i < |s| && (s[i] < ' ' || s[i] == '\U{7F}')
  }

  datatype Refusal = NotFound | NoVersion | OtherVersion(version: string) | ControlIn(field: string) | Missing(field: string)

  datatype Read = Accepted(invitation: Invitation) | Refused(refusal: Refusal)

  /** The first value of a name. */
  function Get(pairs: seq<Pair>, name: string): Option<string> {
    if pairs == [] then None else if pairs[0].name == name then Some(pairs[0].value) else Get(pairs[1..], name)
  }

  /** A field as the reader takes it; None where there is nothing in it. */
  function Value(pairs: seq<Pair>, name: string): Option<string> {
    var value := Get(pairs, name);
    if value.None? || Trimmed(value.value) == "" then None else Some(Trimmed(value.value))
  }

  function Fault(pairs: seq<Pair>, name: string): Option<Refusal> {
    var value := Value(pairs, name);
    if value.None? then if name == "relay" then None else Some(Missing(name))
    else if HasControl(value.value) then Some(ControlIn(name))
    else None
  }

  const FIELDS := ["origin", "relay", "project", "from"]

  function FirstFault(pairs: seq<Pair>, names: seq<string>): Option<Refusal> {
    if names == [] then None else if Fault(pairs, names[0]).Some? then Fault(pairs, names[0]) else FirstFault(pairs, names[1..])
  }

  lemma FaultStep(pairs: seq<Pair>, name: string, rest: seq<string>)
    ensures FirstFault(pairs, [name] + rest).None? <==> Fault(pairs, name).None? && FirstFault(pairs, rest).None?
  {
    assert ([name] + rest)[1..] == rest;
  }

  /** Without a fault every field but the relay is there, and none has a control character. */
  lemma NoFault(pairs: seq<Pair>)
    ensures FirstFault(pairs, FIELDS).None? <==>
              && Fault(pairs, "origin").None? && Fault(pairs, "relay").None?
              && Fault(pairs, "project").None? && Fault(pairs, "from").None?
  {
    FaultStep(pairs, "from", []);
    FaultStep(pairs, "project", ["from"]);
    FaultStep(pairs, "relay", ["project", "from"]);
    FaultStep(pairs, "origin", ["relay", "project", "from"]);
    assert FIELDS == ["origin"] + (["relay"] + (["project"] + (["from"] + [])));
    assert ["relay"] + ["project", "from"] == ["relay", "project", "from"];
    assert ["project"] + ["from"] == ["project", "from"] && ["from"] + [] == ["from"];
  }

  function ReadFields(pairs: seq<Pair>): Read {
    var fault := FirstFault(pairs, FIELDS);
    if fault.Some? then Refused(fault.value)
    else
      NoFault(pairs);
      Accepted(Invitation(Value(pairs, "origin").value, Value(pairs, "relay"), Value(pairs, "project").value, Value(pairs, "from").value))
  }

  function BeforeHash(s: string): string {
    s[..IndexOf(s, '#')]
  }

  /** The URL parser drops the control characters and spaces a link ends in. */
  function Chopped(s: string): string {
    if s != "" && s[|s| - 1] <= ' ' then Chopped(s[..|s| - 1]) else s
  }

  function ReadQuery(fields: string): Read {
    var pairs := Pairs(BeforeHash(Chopped(fields)));
    var version := Get(pairs, "v");
    if version.None? then Refused(NoVersion)
    else if version.value != VERSION then Refused(OtherVersion(version.value))
    else ReadFields(pairs)
  }

  function ReadInvitation(raw: string): Read {
    var found := FindInvitation(raw);
    if found.None? then Refused(NotFound) else ReadQuery(found.value)
  }

  method ParseInvitation(raw: string) returns (read: Read)
    ensures read == ReadInvitation(raw)
  {
    var found := FindInvitation(raw);
    if found.None? {
      return Refused(NotFound);
    }
    var pairs := Pairs(BeforeHash(Chopped(found.value)));
    var version := Get(pairs, "v");
    if version.None? {
      return Refused(NoVersion);
    }
    if version.value != VERSION {
      return Refused(OtherVersion(version.value));
    }
    read := FillRecord(pairs);
  }

  method FillRecord(pairs: seq<Pair>) returns (read: Read)
    ensures read == ReadFields(pairs)
  {
    var values: map<string, string> := map[];
    assert FIELDS[0..] == FIELDS;
    for i := 0 to |FIELDS|
      invariant FirstFault(pairs, FIELDS) == FirstFault(pairs, FIELDS[i..])
      invariant forall k :: 0 <= k < i ==> Value(pairs, FIELDS[k]) == if FIELDS[k] in values then Some(values[FIELDS[k]]) else None
      invariant forall k :: 0 <= k < i ==> Fault(pairs, FIELDS[k]).None?
      invariant forall name :: name in values ==> name in FIELDS[..i]
    {
      var name := FIELDS[i];
      assert FIELDS[i..][1..] == FIELDS[i + 1..];
      var fault := Fault(pairs, name);
      if fault.Some? {
        return Refused(fault.value);
      }
      var value := Value(pairs, name);
      if value.Some? {
        values := values[name := value.value];
      }
    }
    assert FIELDS[0] == "origin" && FIELDS[1] == "relay" && FIELDS[2] == "project" && FIELDS[3] == "from";
    var relay := if "relay" in values then Some(values["relay"]) else None;
    read := Accepted(Invitation(values["origin"], relay, values["project"], values["from"]));
  }

  // ---------------------------------------------------------------- the query comes back

  lemma TerminatedAfter(front: string, text: string)
    requires text == "" ==> front == "" || front[|front| - 1] != '.'
    ensures Terminated(front + text) == front + Terminated(text)
  {
    if text != "" && text[|text| - 1] == '.' {
      assert (front + text)[..|front + text| - 1] == front + text[..|text| - 1];
    } else if text == "" {
      assert front + text == front;
    }
  }

  lemma StopReadsAlike(front: seq<Byte>)
    ensures FormUrl.Read(Write(front) + "%2E") == front + [0x2E]
    ensures AllWritten(Write(front) + "%2E")
  {
    var stop := "%2E";
    assert stop[3..] == "" && FormUrl.Read("") == [];
    assert FormUrl.Read(stop) == [0x2E];
    ReadAfterWrite(front, stop);
    WriteIsWritten(front);
  }

  lemma StopIsLast(bytes: seq<Byte>)
    requires Write(bytes) != "" && Write(bytes)[|Write(bytes)| - 1] == '.'
    ensures bytes != [] && bytes == bytes[..|bytes| - 1] + [0x2E]
    ensures Terminated(Write(bytes)) == Write(bytes[..|bytes| - 1]) + "%2E"
  {
    WriteOfLast(bytes);
    LastIsStop(bytes[|bytes| - 1]);
    assert Write(bytes)[..|Write(bytes)| - 1] == Write(bytes[..|bytes| - 1]);
  }

  /** Ending a value in `%2E` instead of a full stop changes nothing that is read. */
  lemma TerminatedReadsAlike(s: string)
    ensures ReadText(Terminated(WriteText(s))) == s && AllWritten(Terminated(WriteText(s)))
    ensures Terminated(WriteText(s)) == "" || Terminated(WriteText(s))[|Terminated(WriteText(s))| - 1] != '.'
  {
    var bytes := Encode(s);
    var text := WriteText(s);
    TextComesBack(s);
    WriteIsWritten(bytes);
    if text != "" && text[|text| - 1] == '.' {
      StopIsLast(bytes);
      StopReadsAlike(bytes[..|bytes| - 1]);
      DecodeUndoesEncode(s);
    }
  }

  lemma {:induction false} WriteOfLast(bytes: seq<Byte>)
    requires bytes != []
    ensures Write(bytes) == Write(bytes[..|bytes| - 1]) + WriteByte(bytes[|bytes| - 1])
  {
    if |bytes| > 1 {
      WriteOfLast(bytes[1..]);
      assert bytes[1..][..|bytes| - 2] == bytes[..|bytes| - 1][1..];
      Associate(WriteByte(bytes[0]), Write(bytes[1..][..|bytes| - 2]), WriteByte(bytes[|bytes| - 1]));
    }
  }

  lemma LastIsStop(b: Byte)
    requires WriteByte(b)[|WriteByte(b)| - 1] == '.'
    ensures b == 0x2E && WriteByte(b) == "."
  {
  }

  lemma {:induction false} FormIsFormWith(pairs: seq<Pair>)
    requires pairs != []
    ensures Form(pairs) == FormWith(pairs, WriteText(pairs[|pairs| - 1].value))
  {
    if |pairs| > 1 {
      FormIsFormWith(pairs[1..]);
    }
  }

  lemma {:induction false} TerminatedForm(pairs: seq<Pair>, value: string)
    requires pairs != []
    ensures Terminated(FormWith(pairs, value)) == FormWith(pairs, Terminated(value))
  {
    if |pairs| == 1 {
      TerminatedAfter(WriteText(pairs[0].name) + "=", value);
    } else {
      TerminatedForm(pairs[1..], value);
      TerminatedAfter(WritePair(pairs[0]) + "&", FormWith(pairs[1..], value));
    }
  }

  predicate Linkable(c: char) {
    Written(c) || c == '=' || c == '&'
  }

  predicate AllLinkable(text: string) {
    forall i :: 0 <= i < |text| ==> Linkable(text[i])
  }

  lemma WrittenIsLinkable(name: string, value: string)
    requires AllWritten(name) && AllWritten(value)
    ensures AllLinkable(name + "=" + value)
  {
  }

  lemma LinkableMore(a: string, b: string)
    requires AllLinkable(a) && AllLinkable(b)
    ensures AllLinkable(a + "&" + b)
  {
  }

  lemma {:induction false} FormIsLinkable(pairs: seq<Pair>, value: string)
    requires pairs != [] && AllWritten(value) && (value == "" || value[|value| - 1] != '.')
    ensures FormWith(pairs, value) != "" && AllLinkable(FormWith(pairs, value))
    ensures FormWith(pairs, value)[|FormWith(pairs, value)| - 1] != '.'
  {
    WriteIsWritten(Encode(pairs[0].name));
    if |pairs| > 1 {
      WriteIsWritten(Encode(pairs[0].value));
      FormIsLinkable(pairs[1..], value);
      WrittenIsLinkable(WriteText(pairs[0].name), WriteText(pairs[0].value));
      LinkableMore(WritePair(pairs[0]), FormWith(pairs[1..], value));
    } else {
      WrittenIsLinkable(WriteText(pairs[0].name), value);
    }
  }

  function QueryOf(i: Invitation): string {
    Terminated(Form(FieldPairs(i)))
  }

  /** A printed query is of link characters, ends in none a message ends in, and holds the pairs it was printed from. */
  lemma QueryHoldsPairs(i: Invitation)
    ensures QueryOf(i) != "" && AllLinkable(QueryOf(i)) && QueryOf(i)[|QueryOf(i)| - 1] != '.'
    ensures Pairs(QueryOf(i)) == FieldPairs(i)
  {
    var pairs := FieldPairs(i);
    var value := Terminated(WriteText(i.from));
    TerminatedReadsAlike(i.from);
    FormIsFormWith(pairs);
    TerminatedForm(pairs, WriteText(i.from));
    FormIsLinkable(pairs, value);
    PairsUndoForm(pairs, value);
  }

  // ---------------------------------------------------------------- the link is found

  /** The two differ somewhere where they overlap when the second starts `d` into the first. */
  ghost predicate Clash(part: string, link: string, d: nat) {
    exists k: nat :: d + k < |part| && k < |link| && part[d + k] != link[k]
  }

  lemma ClashAt(part: string, link: string, d: nat, k: nat)
    requires d + k < |part| && k < |link| && part[d + k] != link[k]
    ensures Clash(part, link, d)
  {
  }

  lemma AppClash(d: nat)
    requires 0 < d < |PREFIX|
    ensures Clash(PREFIX, PREFIX, d) && Clash(PREFIX, PAGE_PREFIX, d)
  {
    ClashAt(PREFIX, PREFIX, d, 0);
    ClashAt(PREFIX, PAGE_PREFIX, d, 0);
  }

  lemma PagePageClash(d: nat)
    requires 0 < d < |PAGE_PREFIX|
    ensures Clash(PAGE_PREFIX, PAGE_PREFIX, d)
  {
    ClashAt(PAGE_PREFIX, PAGE_PREFIX, d, 0);
  }

  lemma PageAppClash(d: nat)
    requires 0 < d < |PAGE_PREFIX|
    ensures Clash(PAGE_PREFIX, PREFIX, d)
  {
    if d == 1 || d == 2 {
      ClashAt(PAGE_PREFIX, PREFIX, d, 1);
    } else if d == 8 {
      ClashAt(PAGE_PREFIX, PREFIX, d, 7);
    } else {
      ClashAt(PAGE_PREFIX, PREFIX, d, 0);
    }
  }

  lemma WwwPageClash(d: nat)
    requires 0 < d < |WWW_PREFIX|
    ensures Clash(WWW_PREFIX, PAGE_PREFIX, d)
  {
    ClashAt(WWW_PREFIX, PAGE_PREFIX, d, 0);
  }

  lemma WwwAppClash(d: nat)
    requires 0 < d < |WWW_PREFIX|
    ensures Clash(WWW_PREFIX, PREFIX, d)
  {
    if d == 1 || d == 2 {
      ClashAt(WWW_PREFIX, PREFIX, d, 1);
    } else if d == 12 {
      ClashAt(WWW_PREFIX, PREFIX, d, 7);
    } else {
      ClashAt(WWW_PREFIX, PREFIX, d, 0);
    }
  }

  predicate Lower(part: string) {
    forall k :: 0 <= k < |part| ==> Small(part[k]) == part[k]
  }

  /** No prefix begins in the text before a link and ends in the link. */
  lemma NoStraddle(before: string, link: string, rest: string, part: string, i: nat)
    requires i < |before| < i + |part| && Lower(link) && Clash(part, link, |before| - i)
    ensures !HasAt(before + (link + rest), i, part)
  {
    var raw := before + (link + rest);
    var d := |before| - i;
    var k: nat :| d + k < |part| && k < |link| && part[d + k] != link[k];
    assert raw[i + (d + k)] == link[k] && Small(link[k]) == link[k];
  }

  lemma WithinBefore(before: string, more: string, part: string, i: nat)
    requires i + |part| <= |before|
    ensures HasAt(before + more, i, part) <==> HasAt(before, i, part)
  {
    var raw := before + more;
    forall k {:trigger part[k]} | 0 <= k < |part|
      ensures Small(raw[i + k]) == Small(before[i + k])
    {
    }
  }

  lemma NotBefore(before: string, link: string, rest: string, i: nat)
    requires i < |before| && PrefixAt(before, i) == 0 && (link == PREFIX || link == PAGE_PREFIX)
    ensures PrefixAt(before + (link + rest), i) == 0
  {
    var d := |before| - i;
    NotBeforePart(before, link, rest, PREFIX, i);
    NotBeforePart(before, link, rest, WWW_PREFIX, i);
    NotBeforePart(before, link, rest, PAGE_PREFIX, i);
  }

  lemma NotBeforePart(before: string, link: string, rest: string, part: string, i: nat)
    requires i < |before| && !HasAt(before, i, part) && (link == PREFIX || link == PAGE_PREFIX)
    requires part == PREFIX || part == WWW_PREFIX || part == PAGE_PREFIX
    ensures !HasAt(before + (link + rest), i, part)
  {
    if i + |part| <= |before| {
      WithinBefore(before, link + rest, part, i);
    } else {
      var d := |before| - i;
      if part == PREFIX { AppClash(d); } else if part == WWW_PREFIX { WwwAppClash(d); WwwPageClash(d); } else { PageAppClash(d); PagePageClash(d); }
      PrefixesAreLower();
      NoStraddle(before, link, rest, part, i);
    }
  }

  lemma PrefixesAreLower()
    ensures Lower(PREFIX) && Lower(PAGE_PREFIX)
  {
  }

  lemma {:induction false} FirstPrefixIs(raw: string, i: nat, at: nat)
    requires i <= at < |raw| && (forall k :: i <= k < at ==> PrefixAt(raw, k) == 0) && PrefixAt(raw, at) > 0
    ensures FirstPrefix(raw, i) == at
    decreases at - i
  {
    if i < at {
      FirstPrefixIs(raw, i + 1, at);
    }
  }

  lemma {:induction false} ToWhiteIs(token: string, after: string)
    requires (forall i :: 0 <= i < |token| ==> !IsWhite(token[i])) && (after == "" || IsWhite(after[0]))
    ensures ToWhite(token + after) == token
  {
    if token == "" {
      assert token + after == after;
    } else {
      ToWhiteIs(token[1..], after);
      assert (token + after)[1..] == token[1..] + after;
    }
  }

  lemma {:induction false} PeeledIs(link: string, marks: string)
    requires link == "" || !Peelable(link[|link| - 1])
    requires forall i :: 0 <= i < |marks| ==> Peelable(marks[i])
    ensures Peeled(link + marks) == link
    decreases |marks|
  {
    if marks == "" {
      assert link + marks == link;
    } else {
      assert (link + marks)[..|link + marks| - 1] == link + marks[..|marks| - 1];
      PeeledIs(link, marks[..|marks| - 1]);
    }
  }

  lemma LinkableIsPlain(c: char)
    ensures Linkable(c) ==> !IsWhite(c) && c != '#' && (c != '.' ==> !Peelable(c))
    ensures Peelable(c) ==> !IsWhite(c)
  {
  }

  lemma PrefixIsNotWhite(c: char)
    requires c in PREFIX || c in PAGE_PREFIX
    ensures !IsWhite(c)
  {
  }

  lemma {:induction false} HasItself(prefix: string, before: string, rest: string)
    requires Lower(prefix)
    ensures HasAt(before + (prefix + rest), |before|, prefix)
  {
    var raw := before + (prefix + rest);
    assert forall k :: 0 <= k < |prefix| ==> raw[|before| + k] == prefix[k];
  }

  lemma OnePrefix(text: string, i: nat, page: bool)
    requires HasAt(text, i, PrefixOf(page))
    ensures PrefixAt(text, i) == |PrefixOf(page)|
  {
    if page {
      assert Small(text[i]) == PAGE_PREFIX[0] != PREFIX[0];
      assert Small(text[i + 8]) == PAGE_PREFIX[8] != WWW_PREFIX[8];
    }
  }

  ghost predicate NoLinkIn(before: string) {
    forall i :: 0 <= i < |before| ==> PrefixAt(before, i) == 0
  }

  predicate AllPeelable(marks: string) {
    forall i :: 0 <= i < |marks| ==> Peelable(marks[i])
  }

  lemma TokenIs(prefix: string, query: string, marks: string, after: string)
    requires (prefix == PREFIX || prefix == PAGE_PREFIX) && AllLinkable(query) && query != "" && query[|query| - 1] != '.'
    requires AllPeelable(marks) && (after == "" || IsWhite(after[0]))
    ensures Peeled(ToWhite(prefix + query + marks + after)) == prefix + query
  {
    var token := prefix + query + marks;
    forall i | 0 <= i < |token|
      ensures !IsWhite(token[i])
    {
      if i < |prefix| {
        PrefixIsNotWhite(token[i]);
      } else {
        LinkableIsPlain(token[i]);
      }
    }
    ToWhiteIs(token, after);
    LinkableIsPlain(query[|query| - 1]);
    PeeledIs(prefix + query, marks);
  }

  lemma LinkStarts(before: string, page: bool, rest: string)
    requires NoLinkIn(before)
    ensures var raw := before + (PrefixOf(page) + rest);
            FirstPrefix(raw, 0) == |before| < |raw| && PrefixAt(raw, |before|) == |PrefixOf(page)|
  {
    var prefix := PrefixOf(page);
    var raw := before + (prefix + rest);
    forall k | 0 <= k < |before|
      ensures PrefixAt(raw, k) == 0
    {
      NotBefore(before, prefix, rest, k);
    }
    PrefixesAreLower();
    HasItself(prefix, before, rest);
    OnePrefix(raw, |before|, page);
    FirstPrefixIs(raw, 0, |before|);
  }

  lemma FoundFrom(raw: string, at: nat, link: string, prefix: string, query: string)
    requires FirstPrefix(raw, 0) == at < |raw| && PrefixAt(raw, at) == |prefix|
    requires Peeled(ToWhite(raw[at..])) == link == prefix + query && query != ""
    ensures FindInvitation(raw) == Some(query)
  {
    assert link[|prefix|..] == query;
  }

  lemma PastedIs(before: string, prefix: string, query: string, marks: string, after: string)
    ensures before + (prefix + query + marks + after) == before + (prefix + (query + marks + after))
    ensures (before + (prefix + (query + marks + after)))[|before|..] == prefix + query + marks + after
  {
    assert prefix + query + marks + after == prefix + (query + marks + after);
  }

  lemma QueryIsFound(page: bool, query: string, before: string, marks: string, after: string)
    requires NoLinkIn(before) && AllPeelable(marks) && (after == "" || IsWhite(after[0]))
    requires AllLinkable(query) && query != "" && query[|query| - 1] != '.'
    ensures FindInvitation(before + (PrefixOf(page) + query + marks + after)) == Some(query)
  {
    var prefix, rest := PrefixOf(page), query + marks + after;
    PastedIs(before, prefix, query, marks, after);
    LinkStarts(before, page, rest);
    TokenIs(prefix, query, marks, after);
    FoundFrom(before + (prefix + rest), |before|, prefix + query, prefix, query);
  }

  /** A printed link is found in whatever it was pasted into, marks and all. */
  lemma LinkIsFound(i: Invitation, page: bool, before: string, marks: string, after: string)
    requires NoLinkIn(before) && AllPeelable(marks) && (after == "" || IsWhite(after[0]))
    ensures FindInvitation(before + (FormatInvitation(i, page) + marks + after)) == Some(QueryOf(i))
  {
    QueryHoldsPairs(i);
    QueryIsFound(page, QueryOf(i), before, marks, after);
  }

  lemma NoHash(query: string)
    requires AllLinkable(query)
    ensures Chopped(query) == query && BeforeHash(query) == query
  {
    forall i | 0 <= i < |query|
      ensures query[i] != '#'
    {
      LinkableIsPlain(query[i]);
    }
    IndexIs(query, '#', |query|);
  }

  // ---------------------------------------------------------------- the invitation comes back

  predicate CleanField(s: string) {
    s != "" && Trimmed(s) == s && !HasControl(s)
  }

  /** What the format carries: every field there, trimmed and free of control characters. */
  predicate Carriable(i: Invitation) {
    CleanField(i.origin) && CleanField(i.project) && CleanField(i.from) && (i.relay.Some? ==> CleanField(i.relay.value))
  }

  lemma FieldsOf(i: Invitation)
    ensures var pairs := FieldPairs(i);
            && Get(pairs, "v") == Some(VERSION) && Get(pairs, "origin") == Some(i.origin) && Get(pairs, "relay") == i.relay
            && Get(pairs, "project") == Some(i.project) && Get(pairs, "from") == Some(i.from)
  {
    var relay := if i.relay.Some? then [Pair("relay", i.relay.value)] else [];
    var last := [Pair("project", i.project), Pair("from", i.from)];
    assert FieldPairs(i) == [Pair("v", VERSION), Pair("origin", i.origin)] + relay + last;
    GetFirst(Pair("v", VERSION), [Pair("origin", i.origin)] + relay + last);
    GetFirst(Pair("origin", i.origin), relay + last);
    GetFirst(last[0], [last[1]]);
    GetFirst(last[1], []);
    assert FieldPairs(i) == [Pair("v", VERSION)] + ([Pair("origin", i.origin)] + relay + last);
    assert [Pair("origin", i.origin)] + relay + last == [Pair("origin", i.origin)] + (relay + last);
    assert last == [last[0]] + [last[1]] && [last[1]] == [last[1]] + [];
    if i.relay.Some? {
      GetFirst(Pair("relay", i.relay.value), last);
    } else {
      assert relay + last == last;
    }
  }

  lemma GetFirst(pair: Pair, rest: seq<Pair>)
    ensures forall name :: Get([pair] + rest, name) == if pair.name == name then Some(pair.value) else Get(rest, name)
  {
    assert ([pair] + rest)[1..] == rest;
  }

  /** The printed fields read back as the invitation exactly when the format carries it. */
  lemma FieldsComeBack(i: Invitation)
    ensures ReadFields(FieldPairs(i)) == Accepted(i) <==> Carriable(i)
  {
    FieldsOf(i);
    NoFault(FieldPairs(i));
  }

  /**
   * A link read back out of any message: in either form, after any text that holds no other link, and before any
   * marks and then white space or the end, it gives the invitation it was printed from, exactly when every field is
   * there, trimmed and free of control characters.
   */
  lemma InvitationComesBack(i: Invitation, page: bool, before: string, marks: string, after: string)
    requires NoLinkIn(before) && AllPeelable(marks) && (after == "" || IsWhite(after[0]))
    ensures ReadInvitation(before + (FormatInvitation(i, page) + marks + after)) == Accepted(i) <==> Carriable(i)
  {
    LinkIsFound(i, page, before, marks, after);
    QueryHoldsPairs(i);
    NoHash(QueryOf(i));
    FieldsOf(i);
    FieldsComeBack(i);
  }
}
