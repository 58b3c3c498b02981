/**
 * The unified patch parser (src/shared/patch.ts): the numbers it gives each line, and that a patch is read
 * file by file, so that cutting it at a file's start changes nothing.
 *
 * Text is ASCII and a newline is its only line break.
 */
module Patch {
  import opened Text
  import opened Wrappers

  datatype LineKind = Added | Removed | Context

  datatype Line = Line(kind: LineKind, text: string, oldNumber: Option<nat>, newNumber: Option<nat>, noNewline: bool)

  datatype Hunk = Hunk(header: string, oldStart: nat, oldCount: nat, newStart: nat, newCount: nat, lines: seq<Line>)

  datatype Status = FileAdded | FileDeleted | FileRenamed | FileModified

  datatype File = File(path: string, from: Option<string>, status: Status, binary: bool, hunks: seq<Hunk>)

  // ---------------------------------------------------------------- headers

  predicate StartsWith(s: string, start: string) {
    |start| <= |s| && s[..|start|] == start
  }

  predicate EndsWith(s: string, end: string) {
    |end| <= |s| && s[|s| - |end|..] == end
  }

  const DIFF := "diff --git "

  /** A file header: the start of the next file. */
  predicate IsFileStart(line: string) {
    StartsWith(line, DIFF)
  }

  function Strip(path: string): string {
    if StartsWith(path, "a/") || StartsWith(path, "b/") then path[2..] else path
  }

  /** Every `\c` becomes `to`, read from the left. */
  function Unescape(s: string, c: char, to: char): string {
    if |s| >= 2 && s[0] == '\\' && s[1] == c then [to] + Unescape(s[2..], c, to)
    else if s != "" then [s[0]] + Unescape(s[1..], c, to)
    else ""
  }

  /** Git's own quoting undone, one escape after the other. */
  function Unquote(path: string): string {
    if !StartsWith(path, "\"") || !EndsWith(path, "\"") || |path| < 2 then path
    else Unescape(Unescape(Unescape(Unescape(path[1..|path| - 1], 't', '\t'), 'n', '\n'), '\"', '\"'), '\\', '\\')
  }

  /** Where `part` last stands in `s` at or before `from`, or -1. */
  function LastAt(s: string, part: string, from: int): (at: int)
    requires from <= |s| - |part|
    ensures at >= 0 ==> at <= from && s[at..at + |part|] == part
    ensures at >= -1
  {
    if from < 0 then -1 else if s[from..from + |part|] == part then from else LastAt(s, part, from - 1)
  }

  datatype Paths = Paths(path: string, from: Option<string>)

  function PathsFrom(path: string, from: string): Paths {
    Paths(path, if from == path then None else Some(from))
  }

  /** The two paths of a file header: quoted ones exactly, others cut at the last ` b/`. */
  function HeaderPaths(rest: string): Paths {
    var between := if |rest| >= 5 then LastAt(rest, "\" \"", |rest| - 4) else -1;
    if StartsWith(rest, "\"") && EndsWith(rest, "\"") && between >= 1 then
      PathsFrom(Strip(Unquote("\"" + rest[between + 3..|rest| - 1] + "\"")), Strip(Unquote("\"" + rest[1..between] + "\"")))
    else
      var cut := LastAt(rest, " b/", |rest| - 3);
      if cut == -1 then Paths(Strip(rest), None) else PathsFrom(Strip(rest[cut + 1..]), Strip(rest[..cut]))
  }

  function BeforeTab(s: string): string {
    if s == "" || s[0] == '\t' then "" else [s[0]] + BeforeTab(s[1..])
  }

  /** The path of a `---` or `+++` line; None where it names no file. */
  function SidePath(line: string): Option<string>
    requires |line| >= 4
  {
    var raw := Unquote(BeforeTab(line[4..]));
    if raw == "/dev/null" then None else Some(Strip(raw))
  }

  function Digits(s: string): (n: nat)
    ensures n <= |s| && forall i :: 0 <= i < n ==> '0' <= s[i] <= '9'
  {
    if s != "" && '0' <= s[0] <= '9' then 1 + Digits(s[1..]) else 0
  }

  function Number(digits: string): nat
    requires forall i :: 0 <= i < |digits| ==> '0' <= digits[i] <= '9'
  {
    if digits == "" then 0 else Number(digits[..|digits| - 1]) * 10 + (digits[|digits| - 1] as int - '0' as int)
  }

  datatype Side = Side(start: nat, count: nat, rest: string)

  /** `14,7` or `14`, whose count is then one. */
  function SideOf(s: string): Option<Side> {
    var n := Digits(s);
    if n == 0 then None
    else
      var rest := s[n..];
      var m := if StartsWith(rest, ",") then Digits(rest[1..]) else 0;
      if m == 0 then Some(Side(Number(s[..n]), 1, rest))
      else Some(Side(Number(s[..n]), Number(rest[1..][..m]), rest[1 + m..]))
  }

  function AfterAts(s: string): string {
    if StartsWith(s, "@") then AfterAts(s[1..]) else s
  }

  function HunkHeader(line: string): (hunk: Option<Hunk>)
    ensures hunk.Some? ==> hunk.value.header == line && hunk.value.lines == []
  {
    if !StartsWith(line, "@@") || !StartsWith(AfterAts(line), " -") then None
    else
      var before := SideOf(AfterAts(line)[2..]);
      if before.None? || !StartsWith(before.value.rest, " +") then None
      else
        var after := SideOf(before.value.rest[2..]);
        if after.None? || !StartsWith(after.value.rest, " @@") then None
        else Some(Hunk(line, before.value.start, before.value.count, after.value.start, after.value.count, []))
  }

  // ---------------------------------------------------------------- a header read back

  function Decimal(n: nat): (text: string)
    ensures text != "" && forall i :: 0 <= i < |text| ==> '0' <= text[i] <= '9'
  {
    (if n < 10 then "" else Decimal(n / 10)) + [('0' as int + n % 10) as char]
  }

  lemma {:induction false} NumberOfDecimal(n: nat)
    ensures Number(Decimal(n)) == n
  {
    var text := Decimal(n);
    if n < 10 {
      assert text[..|text| - 1] == "";
    } else {
      NumberOfDecimal(n / 10);
      assert text[..|text| - 1] == Decimal(n / 10);
    }
  }

  lemma {:induction false} DigitsEnd(digits: string, rest: string)
    requires (forall i :: 0 <= i < |digits| ==> '0' <= digits[i] <= '9') && (rest == "" || !('0' <= rest[0] <= '9'))
    ensures Digits(digits + rest) == |digits|
  {
    if digits == "" {
      assert digits + rest == rest;
    } else {
      DigitsEnd(digits[1..], rest);
      assert (digits + rest)[1..] == digits[1..] + rest;
    }
  }

  /** One side of a header as git writes it: the count is left out when it is one. */
  function SideText(start: nat, count: nat): string {
    Decimal(start) + if count == 1 then "" else "," + Decimal(count)
  }

  predicate AllDigits(s: string) {
    forall i :: 0 <= i < |s| ==> '0' <= s[i] <= '9'
  }

  lemma {:induction false} SideAlone(digits: string, rest: string)
    requires digits != "" && AllDigits(digits) && StartsWith(rest, " ")
    ensures SideOf(digits + rest) == Some(Side(Number(digits), 1, rest))
  {
    DigitsEnd(digits, rest);
    assert (digits + rest)[..|digits|] == digits && (digits + rest)[|digits|..] == rest;
    assert rest[..1] == " ";
  }

  lemma {:induction false} SideCounted(digits: string, more: string, rest: string)
    requires digits != "" && AllDigits(digits) && more != "" && AllDigits(more) && StartsWith(rest, " ")
    ensures SideOf(digits + ("," + (more + rest))) == Some(Side(Number(digits), Number(more), rest))
  {
    var behind := "," + (more + rest);
    DigitsEnd(digits, behind);
    DigitsEnd(more, rest);
    assert (digits + behind)[..|digits|] == digits && (digits + behind)[|digits|..] == behind;
    assert behind[..1] == "," && behind[1..] == more + rest;
    assert (more + rest)[..|more|] == more && behind[1 + |more|..] == rest;
  }

  lemma {:induction false} SideComesBack(start: nat, count: nat, rest: string)
    requires StartsWith(rest, " ")
    ensures SideOf(SideText(start, count) + rest) == Some(Side(start, count, rest))
  {
    var digits, more := Decimal(start), Decimal(count);
    NumberOfDecimal(start);
    NumberOfDecimal(count);
    if count == 1 {
      SideAlone(digits, rest);
      assert digits + "" == digits;
    } else {
      SideCounted(digits, more, rest);
      Associate(digits, "," + more, rest);
      Associate(",", more, rest);
    }
  }

  lemma {:induction false} AtsEnd(rest: string)
    ensures AfterAts("@@ -" + rest) == " -" + rest
  {
    var line := "@@ -" + rest;
    assert line[1..] == "@ -" + rest && line[1..][1..] == " -" + rest;
    assert line[..1] == "@" && line[1..][..1] == "@" && (" -" + rest)[..1] == " ";
    assert AfterAts(" -" + rest) == " -" + rest;
    assert AfterAts(line[1..]) == AfterAts(line[1..][1..]);
  }

  lemma {:induction false} HeaderOfSides(line: string, text: string, before: Side, after: Side)
    requires StartsWith(line, "@@") && AfterAts(line) == " -" + text
    requires SideOf(text) == Some(before) && StartsWith(before.rest, " +")
    requires SideOf(before.rest[2..]) == Some(after) && StartsWith(after.rest, " @@")
    ensures HunkHeader(line) == Some(Hunk(line, before.start, before.count, after.start, after.count, []))
  {
    assert AfterAts(line)[..2] == " -" && AfterAts(line)[2..] == text;
  }

  function HeaderText(oldStart: nat, oldCount: nat, newStart: nat, newCount: nat, heading: string): string {
    "@@ -" + (SideText(oldStart, oldCount) + (" +" + (SideText(newStart, newCount) + (" @@" + heading))))
  }

  /** A header as git writes it, whatever follows it on the line, is read as its four numbers. */
  lemma {:induction false} HeaderComesBack(oldStart: nat, oldCount: nat, newStart: nat, newCount: nat, heading: string)
    ensures var line := HeaderText(oldStart, oldCount, newStart, newCount, heading);
            HunkHeader(line) == Some(Hunk(line, oldStart, oldCount, newStart, newCount, []))
  {
    var first, second := SideText(oldStart, oldCount), SideText(newStart, newCount);
    SideComesBack(oldStart, oldCount, " +" + (second + (" @@" + heading)));
    SideComesBack(newStart, newCount, " @@" + heading);
    HeaderOfTexts(first, second, heading, oldStart, oldCount, newStart, newCount);
  }

  lemma {:induction false} HeaderOfTexts(first: string, second: string, heading: string, oldStart: nat, oldCount: nat, newStart: nat, newCount: nat)
    requires SideOf(second + (" @@" + heading)) == Some(Side(newStart, newCount, " @@" + heading))
    requires var middle := " +" + (second + (" @@" + heading)); SideOf(first + middle) == Some(Side(oldStart, oldCount, middle))
    ensures var line := "@@ -" + (first + (" +" + (second + (" @@" + heading))));
            HunkHeader(line) == Some(Hunk(line, oldStart, oldCount, newStart, newCount, []))
  {
    var end := " @@" + heading;
    var middle := " +" + (second + end);
    var line := "@@ -" + (first + middle);
    AtsEnd(first + middle);
    assert line[..2] == "@@" && middle[..2] == " +" && middle[2..] == second + end && end[..3] == " @@";
    HeaderOfSides(line, first + middle, Side(oldStart, oldCount, middle), Side(newStart, newCount, end));
  }

  // ---------------------------------------------------------------- one file

  datatype Counters = Counters(oldNumber: nat, newNumber: nat)

  /** A file as far as it is read, and the numbers of the next line when a hunk of it is open. */
  datatype Reading = Reading(file: File, hunk: Option<Counters>) {
    predicate Valid() {
      hunk.Some? ==> file.hunks != []
    }
  }

  function Preamble(file: File, line: string): (next: File)
    ensures next.hunks == file.hunks
  {
    if StartsWith(line, "rename from ") then file.(from := Some(line[12..]))
    else if StartsWith(line, "rename to ") then file.(path := line[10..])
    else if StartsWith(line, "copy from ") then file.(from := Some(line[10..]))
    else if StartsWith(line, "new file mode") then file.(status := FileAdded)
    else if StartsWith(line, "deleted file mode") then file.(status := FileDeleted)
    else if StartsWith(line, "Binary files ") || StartsWith(line, "GIT binary patch") then file.(binary := true)
    else if StartsWith(line, "--- ") || StartsWith(line, "+++ ") then
      var path := SidePath(line);
      if path.None? then file.(status := if StartsWith(line, "--- ") then FileAdded else FileDeleted)
      else if StartsWith(line, "+++ ") || file.path == "" then file.(path := path.value)
      else file
    else file
  }

  function LastMarked(lines: seq<Line>): (marked: seq<Line>)
    ensures |marked| == |lines|
  {
    if lines == [] then [] else lines[|lines| - 1 := lines[|lines| - 1].(noNewline := true)]
  }

  function KindOf(line: string): LineKind {
    if StartsWith(line, "+") then Added else if StartsWith(line, "-") then Removed else Context
  }

  function LineOf(line: string, at: Counters): Line {
    var kind := KindOf(line);
    Line(kind, if line == "" then "" else line[1..],
         if kind.Added? then None else Some(at.oldNumber), if kind.Removed? then None else Some(at.newNumber), false)
  }

  function Past(kind: LineKind, at: Counters): Counters {
    Counters(at.oldNumber + if kind.Added? then 0 else 1, at.newNumber + if kind.Removed? then 0 else 1)
  }

  function WithHunk(file: File, hunk: Hunk): File {
    file.(hunks := file.hunks + [hunk])
  }

  function WithLines(file: File, lines: seq<Line>): File
    requires file.hunks != []
  {
    var last := |file.hunks| - 1;
    file.(hunks := file.hunks[last := file.hunks[last].(lines := lines)])
  }

  function OpenHunk(r: Reading, line: string): (next: Reading)
    requires r.Valid()
    ensures next.Valid()
  {
    var parsed := HunkHeader(line);
    if parsed.None? then r
    else Reading(WithHunk(r.file, parsed.value), Some(Counters(parsed.value.oldStart, parsed.value.newStart)))
  }

  function MarkLine(r: Reading): (next: Reading)
    requires r.Valid() && r.hunk.Some?
    ensures next.Valid()
  {
    Reading(WithLines(r.file, LastMarked(r.file.hunks[|r.file.hunks| - 1].lines)), r.hunk)
  }

  function AddLine(r: Reading, line: string): (next: Reading)
    requires r.Valid() && r.hunk.Some?
    ensures next.Valid()
  {
    Reading(WithLines(r.file, r.file.hunks[|r.file.hunks| - 1].lines + [LineOf(line, r.hunk.value)]),
            Some(Past(KindOf(line), r.hunk.value)))
  }

  /** One line that starts no file, read into the file it falls in. */
  function ReadLine(r: Reading, line: string): (next: Reading)
    requires r.Valid()
    ensures next.Valid()
  {
    if StartsWith(line, "@@") then OpenHunk(r, line)
    else if r.hunk.None? then Reading(Preamble(r.file, line), None)
    else if StartsWith(line, "\\") then MarkLine(r)
    else AddLine(r, line)
  }

  function Fresh(paths: Paths): (r: Reading)
    ensures r.Valid()
  {
    Reading(File(paths.path, paths.from, FileModified, false, []), None)
  }

  // ---------------------------------------------------------------- the whole patch

  /** The files read before, and the one being read. */
  datatype Parse = Parse(done: seq<File>, current: Option<Reading>) {
    predicate Valid() {
      (current.Some? ==> current.value.Valid()) && (current.None? ==> done == [])
    }

    function Files(): seq<File> {
      done + if current.None? then [] else [current.value.file]
    }
  }

  function Step(p: Parse, line: string): (next: Parse)
    requires p.Valid()
    ensures next.Valid()
  {
    if IsFileStart(line) then Parse(p.Files(), Some(Fresh(HeaderPaths(line[|DIFF|..]))))
    else if p.current.Some? then Parse(p.done, Some(ReadLine(p.current.value, line)))
    else if StartsWith(line, "@@") || StartsWith(line, "--- ") then Parse([], Some(ReadLine(Fresh(Paths("", None)), line)))
    else p
  }

  function Run(p: Parse, lines: seq<string>): (end: Parse)
    requires p.Valid()
    ensures end.Valid()
  {
    if lines == [] then p else Step(Run(p, lines[..|lines| - 1]), lines[|lines| - 1])
  }

  /** A file whose path changed is renamed, when nothing else was said of it. */
  function Settled(file: File): File {
    if file.from.Some? && file.from.value != file.path && file.status.FileModified? then file.(status := FileRenamed) else file
  }

  function AllSettled(files: seq<File>): (settled: seq<File>)
    ensures |settled| == |files| && forall i :: 0 <= i < |files| ==> settled[i] == Settled(files[i])
  {
    seq(|files|, i requires 0 <= i < |files| => Settled(files[i]))
  }

  /** The lines of a patch: what follows its last newline is one only when it is not empty. */
  function PatchLines(patch: string): seq<string> {
    Lines(patch) + if Tail(patch) == "" then [] else [Tail(patch)]
  }

  function Parsed(patch: string): seq<File> {
    AllSettled(Run(Parse([], None), PatchLines(patch)).Files())
  }

  // ---------------------------------------------------------------- the loop

  lemma {:induction false} RunOne(p: Parse, lines: seq<string>, index: nat)
    requires p.Valid() && index < |lines|
    ensures Run(p, lines[..index + 1]) == Step(Run(p, lines[..index]), lines[index])
  {
    assert lines[..index + 1][..index] == lines[..index];
  }

  method ParsePatch(patch: string) returns (files: seq<File>)
    ensures files == Parsed(patch)
  {
    var all := PatchLines(patch);
    files := [];
    var hunk: Option<Counters> := None;
    ghost var empty := Parse([], None);
    for index := 0 to |all|
      invariant Reads(Run(empty, all[..index]), files, hunk)
    {
      RunOne(empty, all, index);
      files, hunk := TakeLine(files, hunk, all[index], Run(empty, all[..index]));
    }
    assert all[..|all|] == all;
    files := SettleAll(files);
  }

  /** The loop's variables hold what the parse has read. */
  ghost predicate Reads(p: Parse, files: seq<File>, hunk: Option<Counters>) {
    p.Valid() && files == p.Files() && hunk == if p.current.None? then None else p.current.value.hunk
  }

  method TakeLine(files: seq<File>, hunk: Option<Counters>, line: string, ghost p: Parse)
    returns (next: seq<File>, open: Option<Counters>)
    requires Reads(p, files, hunk)
    ensures Reads(Step(p, line), next, open)
  {
    if IsFileStart(line) {
      return files + [Fresh(HeaderPaths(line[|DIFF|..])).file], None;
    }
    var known := files;
    if files == [] && (StartsWith(line, "@@") || StartsWith(line, "--- ")) {
      known := [Fresh(Paths("", None)).file];
    }
    if known == [] {
      return known, None;
    }
    var file := known[|known| - 1];
    var read := ReadLine(Reading(file, hunk), line);
    next, open := known[|known| - 1 := read.file], read.hunk;
  }

  method SettleAll(files: seq<File>) returns (settled: seq<File>)
    ensures settled == AllSettled(files)
  {
    settled := files;
    for i := 0 to |files|
      invariant |settled| == |files|
      invariant forall k :: 0 <= k < |files| ==> settled[k] == if k < i then Settled(files[k]) else files[k]
    {
      settled := settled[i := Settled(files[i])];
    }
  }

  // ---------------------------------------------------------------- the numbers

  /** How many of some lines were there before the change, and how many after it. */
  function Before(lines: seq<Line>): nat {
    if lines == [] then 0 else Before(lines[..|lines| - 1]) + if lines[|lines| - 1].kind.Added? then 0 else 1
  }

  function After(lines: seq<Line>): nat {
    if lines == [] then 0 else After(lines[..|lines| - 1]) + if lines[|lines| - 1].kind.Removed? then 0 else 1
  }

  /** A line's numbers are the header's, moved on by the lines before it on that side. */
  predicate NumberedAt(oldStart: nat, newStart: nat, lines: seq<Line>, k: nat)
    requires k < |lines|
  {
    && lines[k].oldNumber == (if lines[k].kind.Added? then None else Some(oldStart + Before(lines[..k])))
    && lines[k].newNumber == (if lines[k].kind.Removed? then None else Some(newStart + After(lines[..k])))
  }

  predicate Numbered(hunk: Hunk) {
    forall k :: 0 <= k < |hunk.lines| ==> NumberedAt(hunk.oldStart, hunk.newStart, hunk.lines, k)
  }

  /** What the header says is what the hunk holds. */
  predicate Headed(hunk: Hunk) {
    HunkHeader(hunk.header) == Some(hunk.(lines := []))
  }

  predicate AllNumbered(file: File) {
    forall h :: 0 <= h < |file.hunks| ==> Numbered(file.hunks[h]) && Headed(file.hunks[h])
  }

  function NextNumbers(hunk: Hunk): Counters {
    Counters(hunk.oldStart + Before(hunk.lines), hunk.newStart + After(hunk.lines))
  }

  predicate Counted(r: Reading) {
    && AllNumbered(r.file)
    && (r.hunk.Some? ==> r.file.hunks != [] && r.hunk.value == NextNumbers(r.file.hunks[|r.file.hunks| - 1]))
  }

  lemma {:induction false} MarkedCount(lines: seq<Line>)
    ensures Before(LastMarked(lines)) == Before(lines) && After(LastMarked(lines)) == After(lines)
  {
    if lines != [] {
      assert LastMarked(lines)[..|lines| - 1] == lines[..|lines| - 1];
    }
  }

  lemma {:induction false} MarkedAt(oldStart: nat, newStart: nat, lines: seq<Line>, k: nat)
    requires k < |lines| && NumberedAt(oldStart, newStart, lines, k)
    ensures NumberedAt(oldStart, newStart, LastMarked(lines), k)
  {
    assert LastMarked(lines)[..k] == lines[..k];
  }

  lemma {:induction false} StillNumbered(oldStart: nat, newStart: nat, lines: seq<Line>, line: Line, k: nat)
    requires k < |lines| && NumberedAt(oldStart, newStart, lines, k)
    ensures NumberedAt(oldStart, newStart, lines + [line], k)
  {
    assert (lines + [line])[..k] == lines[..k];
  }

  lemma {:induction false} OneMoreCount(lines: seq<Line>, line: Line)
    ensures Before(lines + [line]) == Before(lines) + if line.kind.Added? then 0 else 1
    ensures After(lines + [line]) == After(lines) + if line.kind.Removed? then 0 else 1
  {
    assert (lines + [line])[..|lines|] == lines;
  }

  lemma MarkedIsNumbered(hunk: Hunk)
    requires Numbered(hunk)
    ensures Numbered(hunk.(lines := LastMarked(hunk.lines)))
    ensures NextNumbers(hunk.(lines := LastMarked(hunk.lines))) == NextNumbers(hunk)
  {
    MarkedCount(hunk.lines);
    forall k | 0 <= k < |hunk.lines|
      ensures NumberedAt(hunk.oldStart, hunk.newStart, LastMarked(hunk.lines), k)
    {
      MarkedAt(hunk.oldStart, hunk.newStart, hunk.lines, k);
    }
  }

  lemma OneMoreIsNumbered(hunk: Hunk, line: string)
    requires Numbered(hunk)
    ensures Numbered(hunk.(lines := hunk.lines + [LineOf(line, NextNumbers(hunk))]))
    ensures NextNumbers(hunk.(lines := hunk.lines + [LineOf(line, NextNumbers(hunk))])) == Past(KindOf(line), NextNumbers(hunk))
  {
    var next := LineOf(line, NextNumbers(hunk));
    var lines := hunk.lines + [next];
    OneMoreCount(hunk.lines, next);
    assert lines[..|hunk.lines|] == hunk.lines;
    forall k | 0 <= k < |lines|
      ensures NumberedAt(hunk.oldStart, hunk.newStart, lines, k)
    {
      if k < |hunk.lines| {
        StillNumbered(hunk.oldStart, hunk.newStart, hunk.lines, next, k);
      }
    }
  }

  lemma OtherHunksStay(file: File, lines: seq<Line>)
    requires AllNumbered(file) && file.hunks != []
    requires Numbered(file.hunks[|file.hunks| - 1].(lines := lines))
    ensures AllNumbered(WithLines(file, lines))
  {
    var next := WithLines(file, lines);
    forall h | 0 <= h < |next.hunks|
      ensures Numbered(next.hunks[h]) && Headed(next.hunks[h])
    {
      assert Numbered(file.hunks[h]) && Headed(file.hunks[h]);
    }
  }

  lemma OneMoreHunk(file: File, hunk: Hunk)
    requires AllNumbered(file) && Headed(hunk) && hunk.lines == []
    ensures AllNumbered(WithHunk(file, hunk)) && Counted(Reading(WithHunk(file, hunk), Some(Counters(hunk.oldStart, hunk.newStart))))
  {
    var next := WithHunk(file, hunk);
    forall h | 0 <= h < |next.hunks|
      ensures Numbered(next.hunks[h]) && Headed(next.hunks[h])
    {
      assert next.hunks[h] == if h < |file.hunks| then file.hunks[h] else hunk;
    }
  }

  lemma OpenHunkCounts(r: Reading, line: string)
    requires r.Valid() && Counted(r)
    ensures Counted(OpenHunk(r, line))
  {
    var parsed := HunkHeader(line);
    if parsed.Some? {
      assert parsed.value.(lines := []) == parsed.value;
      OneMoreHunk(r.file, parsed.value);
    }
  }

  lemma MarkLineCounts(r: Reading)
    requires r.Valid() && Counted(r) && r.hunk.Some?
    ensures Counted(MarkLine(r))
  {
    var last := r.file.hunks[|r.file.hunks| - 1];
    assert Numbered(last);
    MarkedIsNumbered(last);
    OtherHunksStay(r.file, LastMarked(last.lines));
  }

  lemma AddLineCounts(r: Reading, line: string)
    requires r.Valid() && Counted(r) && r.hunk.Some?
    ensures Counted(AddLine(r, line))
  {
    var last := r.file.hunks[|r.file.hunks| - 1];
    assert Numbered(last);
    OneMoreIsNumbered(last, line);
    OtherHunksStay(r.file, last.lines + [LineOf(line, r.hunk.value)]);
  }

  lemma PreambleCounts(r: Reading, file: File)
    requires Counted(r) && file.hunks == r.file.hunks
    ensures Counted(Reading(file, None))
  {
  }

  lemma ReadLineCounts(r: Reading, line: string)
    requires r.Valid() && Counted(r)
    ensures Counted(ReadLine(r, line))
  {
    if StartsWith(line, "@@") {
      OpenHunkCounts(r, line);
    } else if r.hunk.None? {
      PreambleCounts(r, Preamble(r.file, line));
    } else {
      MarkLineCounts(r);
      AddLineCounts(r, line);
    }
  }

  ghost predicate AllCounted(p: Parse) {
    p.Valid() && (forall i :: 0 <= i < |p.done| ==> AllNumbered(p.done[i])) && (p.current.Some? ==> Counted(p.current.value))
  }

  lemma StepCounts(p: Parse, line: string)
    requires AllCounted(p)
    ensures AllCounted(Step(p, line))
  {
    if !IsFileStart(line) && p.current.Some? {
      ReadLineCounts(p.current.value, line);
    } else {
      ReadLineCounts(Fresh(Paths("", None)), line);
    }
  }

  lemma {:induction false} RunCounts(p: Parse, lines: seq<string>)
    requires AllCounted(p)
    ensures AllCounted(Run(p, lines))
  {
    if lines != [] {
      RunCounts(p, lines[..|lines| - 1]);
      StepCounts(Run(p, lines[..|lines| - 1]), lines[|lines| - 1]);
    }
  }

  /** In any text at all, every line of every hunk is numbered off its header. */
  lemma NumbersAreCounted(patch: string)
    ensures forall i :: 0 <= i < |Parsed(patch)| ==> AllNumbered(Parsed(patch)[i])
  {
    RunCounts(Parse([], None), PatchLines(patch));
  }

  // ---------------------------------------------------------------- file by file

  lemma {:induction false} RunComposes(p: Parse, a: seq<string>, b: seq<string>)
    requires p.Valid()
    ensures Run(p, a + b) == Run(Run(p, a), b)
  {
    if b == [] {
      assert a + b == a;
    } else {
      RunComposes(p, a, b[..|b| - 1]);
      assert (a + b)[..|a + b| - 1] == a + b[..|b| - 1];
    }
  }

  function Behind(before: seq<File>, p: Parse): Parse {
    p.(done := before + p.done)
  }

  /** Files already read have no say in how the rest is read. */
  lemma {:induction false} RunBehind(before: seq<File>, p: Parse, lines: seq<string>)
    requires p.Valid() && p.current.Some?
    ensures Run(p, lines).current.Some? && Run(Behind(before, p), lines) == Behind(before, Run(p, lines))
  {
    if lines != [] {
      RunBehind(before, p, lines[..|lines| - 1]);
      var r := Run(p, lines[..|lines| - 1]);
      Associate(before, r.done, [r.current.value.file]);
    }
  }

  lemma StartsAfresh(p: Parse, line: string)
    requires p.Valid() && IsFileStart(line)
    ensures Step(p, line) == Behind(p.Files(), Step(Parse([], None), line))
    ensures Run(p, [line]) == Step(p, line) && Step(p, line).current.Some?
  {
    var one := [line];
    assert one[..|one| - 1] == [] && one[|one| - 1] == line;
  }

  lemma FilesBehind(before: seq<File>, p: Parse)
    requires p.current.Some?
    ensures Behind(before, p).Files() == before + p.Files()
  {
    Associate(before, p.done, [p.current.value.file]);
  }

  /** From the start of a file on, what was read before makes no difference but to stand in front. */
  lemma FromFileStart(p: Parse, lines: seq<string>)
    requires p.Valid() && lines != [] && IsFileStart(lines[0])
    ensures Run(p, lines).Files() == p.Files() + Run(Parse([], None), lines).Files()
  {
    var empty, rest := Parse([], None), lines[1..];
    var begun := Step(empty, lines[0]);
    assert lines == [lines[0]] + rest;
    StartsAfresh(p, lines[0]);
    StartsAfresh(empty, lines[0]);
    RunComposes(p, [lines[0]], rest);
    RunComposes(empty, [lines[0]], rest);
    RunBehind(p.Files(), begun, rest);
    FilesBehind(p.Files(), Run(begun, rest));
  }
}
