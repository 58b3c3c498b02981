/**
 * A patch written out as git writes it and read back (src/shared/patch.ts): every path, status, number, kind and text
 * comes back as it was.
 */
module PatchPrint {
  import opened Patch
  import opened RunCompare
  import opened Text
  import opened Wrappers

  // ---------------------------------------------------------------- writing

  const NO_NEWLINE := "\\ No newline at end of file"

  function Marker(kind: LineKind): char {
    match kind
    case Added => '+'
    case Removed => '-'
    case Context => ' '
  }

  function LineText(line: Line): seq<string> {
    [[Marker(line.kind)] + line.text] + if line.noNewline then [NO_NEWLINE] else []
  }

  /** What is written of each, one after the other. */
  function Joined<T>(all: seq<T>, text: T -> seq<string>): seq<string> {
    if all == [] then [] else Joined(all[..|all| - 1], text) + text(all[|all| - 1])
  }

  function LinesText(lines: seq<Line>): seq<string> {
    Joined(lines, LineText)
  }

  function HunkText(hunk: Hunk): seq<string> {
    [hunk.header] + LinesText(hunk.lines)
  }

  function HunksText(hunks: seq<Hunk>): seq<string> {
    Joined(hunks, HunkText)
  }

  /** The path before the change. */
  function OldPath(file: File): string {
    if file.from.Some? then file.from.value else file.path
  }

  function StatusText(file: File): seq<string> {
    match file.status
    case FileAdded => ["new file mode 100644"]
    case FileDeleted => ["deleted file mode 100644"]
    case FileRenamed => ["similarity index 90%", "rename from " + OldPath(file), "rename to " + file.path]
    case FileModified => ["index 83db48f..bf2a1c5 100644"]
  }

  /** A tab follows a path with a space in it, so that it can be told where the path ends. */
  function Stop(path: string): string {
    if ' ' in path then "\t" else ""
  }

  function SidesText(file: File): seq<string> {
    ["--- " + if file.status.FileAdded? then "/dev/null" else "a/" + OldPath(file) + Stop(OldPath(file)),
     "+++ " + if file.status.FileDeleted? then "/dev/null" else "b/" + file.path + Stop(file.path)]
  }

  function BodyText(file: File): seq<string> {
    if file.binary then ["Binary files a/" + OldPath(file) + " and b/" + file.path + " differ"]
    else if file.hunks == [] then []
    else SidesText(file) + HunksText(file.hunks)
  }

  function FileText(file: File): seq<string> {
    [DIFF + ("a/" + OldPath(file) + " b/" + file.path)] + StatusText(file) + BodyText(file)
  }

  function Ended(lines: seq<string>): string {
    if lines == [] then "" else lines[0] + "\n" + Ended(lines[1..])
  }

  function Printed(file: File): string {
    Ended(FileText(file))
  }

  // ---------------------------------------------------------------- what can be written

  /** A path git writes as it is. */
  predicate Plain(path: string) {
    path != "" && forall i :: 0 <= i < |path| ==> path[i] != '\n' && path[i] != '\t' && path[i] != '\"' && path[i] != '\\'
  }

  predicate WritableHunk(hunk: Hunk) {
    && Headed(hunk) && Numbered(hunk) && '\n' !in hunk.header
    && forall k :: 0 <= k < |hunk.lines| ==> '\n' !in hunk.lines[k].text
  }

  predicate Writable(file: File) {
    && Plain(file.path) && (file.from.Some? <==> file.status.FileRenamed?)
    && (file.from.Some? ==> Plain(file.from.value) && file.from.value != file.path)
    && (file.binary ==> file.hunks == [])
    && forall h :: 0 <= h < |file.hunks| ==> WritableHunk(file.hunks[h])
  }

  // ---------------------------------------------------------------- reading a hunk back

  function ReadAll(r: Reading, lines: seq<string>): (end: Reading)
    requires r.Valid()
    ensures end.Valid()
  {
    if lines == [] then r else ReadLine(ReadAll(r, lines[..|lines| - 1]), lines[|lines| - 1])
  }

  lemma {:induction false} ReadAllComposes(r: Reading, a: seq<string>, b: seq<string>)
    requires r.Valid()
    ensures ReadAll(r, a + b) == ReadAll(ReadAll(r, a), b)
  {
    if b == [] {
      assert a + b == a;
    } else {
      ReadAllComposes(r, a, b[..|b| - 1]);
      assert (a + b)[..|a + b| - 1] == a + b[..|b| - 1];
    }
  }

  lemma ReadOne(r: Reading, line: string)
    requires r.Valid()
    ensures ReadAll(r, [line]) == ReadLine(r, line)
  {
    var one := [line];
    assert one[..|one| - 1] == [] && ReadAll(r, []) == r;
  }

  lemma OtherStart(line: string, start: string, i: nat)
    requires i < |start| && (i < |line| ==> line[i] != start[i])
    ensures !StartsWith(line, start)
  {
    assert |start| <= |line| ==> line[..|start|][i] == line[i];
  }

  lemma OwnStart(start: string, rest: string)
    ensures StartsWith(start + rest, start) && (start + rest)[|start|..] == rest
  {
  }

  lemma MarkerIsKind(line: Line)
    ensures var text := [Marker(line.kind)] + line.text;
            && KindOf(text) == line.kind && text != "" && text[1..] == line.text
            && !StartsWith(text, "@@") && !StartsWith(text, "\\")
  {
    var text := [Marker(line.kind)] + line.text;
    assert text[..1] == [Marker(line.kind)];
    OtherStart(text, "@@", 0);
    OtherStart(text, "\\", 0);
    if !line.kind.Added? {
      OtherStart(text, "+", 0);
    }
    if !line.kind.Removed? {
      OtherStart(text, "-", 0);
    }
  }

  /** A file with a hunk open, as far as `k` lines of it. */
  function Midway(file: File, hunk: Hunk, k: nat): (r: Reading)
    requires k <= |hunk.lines|
    ensures r.Valid()
  {
    var part := hunk.(lines := hunk.lines[..k]);
    Reading(WithHunk(file, part), Some(NextNumbers(part)))
  }

  lemma {:induction false} LineAdded(file: File, hunk: Hunk, k: nat)
    requires k < |hunk.lines| && NumberedAt(hunk.oldStart, hunk.newStart, hunk.lines, k)
    ensures AddLine(Midway(file, hunk, k), [Marker(hunk.lines[k].kind)] + hunk.lines[k].text)
         == Midway(file, hunk.(lines := hunk.lines[k := hunk.lines[k].(noNewline := false)]), k + 1)
  {
    var line := hunk.lines[k];
    var bare := line.(noNewline := false);
    var next := hunk.(lines := hunk.lines[k := bare]);
    MarkerIsKind(line);
    assert LineOf([Marker(line.kind)] + line.text, NextNumbers(hunk.(lines := hunk.lines[..k]))) == bare;
    assert next.lines[..k + 1] == hunk.lines[..k] + [bare];
    OneMoreCount(hunk.lines[..k], bare);
    var last := |file.hunks|;
    var before, after := Midway(file, hunk, k).file, Midway(file, next, k + 1).file;
    assert before.hunks[last := before.hunks[last].(lines := hunk.lines[..k] + [bare])] == after.hunks;
  }

  lemma {:induction false} LineMarked(file: File, hunk: Hunk, k: nat)
    requires k < |hunk.lines| && hunk.lines[k].noNewline
    ensures MarkLine(Midway(file, hunk.(lines := hunk.lines[k := hunk.lines[k].(noNewline := false)]), k + 1)) == Midway(file, hunk, k + 1)
  {
    var bare := hunk.(lines := hunk.lines[k := hunk.lines[k].(noNewline := false)]);
    assert LastMarked(bare.lines[..k + 1]) == hunk.lines[..k + 1];
    MarkedCount(bare.lines[..k + 1]);
    var last := |file.hunks|;
    var before, after := Midway(file, bare, k + 1).file, Midway(file, hunk, k + 1).file;
    assert before.hunks[last := before.hunks[last].(lines := hunk.lines[..k + 1])] == after.hunks;
  }

  lemma {:induction false} LineComesBack(file: File, hunk: Hunk, k: nat)
    requires k < |hunk.lines| && NumberedAt(hunk.oldStart, hunk.newStart, hunk.lines, k)
    ensures ReadAll(Midway(file, hunk, k), LineText(hunk.lines[k])) == Midway(file, hunk, k + 1)
  {
    var line := hunk.lines[k];
    var text := [Marker(line.kind)] + line.text;
    MarkerIsKind(line);
    LineAdded(file, hunk, k);
    ReadOne(Midway(file, hunk, k), text);
    if line.noNewline {
      ReadAllComposes(Midway(file, hunk, k), [text], [NO_NEWLINE]);
      LineMarked(file, hunk, k);
      NoNewlineIsRemark();
      ReadOne(Midway(file, hunk.(lines := hunk.lines[k := line.(noNewline := false)]), k + 1), NO_NEWLINE);
    } else {
      assert hunk.lines[k := line.(noNewline := false)] == hunk.lines;
      assert LineText(line) == [text];
    }
  }

  lemma NoNewlineIsRemark()
    ensures StartsWith(NO_NEWLINE, "\\") && !StartsWith(NO_NEWLINE, "@@")
  {
    assert NO_NEWLINE[..1] == "\\" && NO_NEWLINE[..2][0] == '\\';
  }

  /** One piece after another: what is written of each takes the reader from one state to the next. */
  ghost predicate StepByStep<T(!new), R(!new)>(all: seq<T>, text: T -> seq<string>, read: seq<string> -> R, states: seq<R>) {
    && |states| == |all| + 1 && read([]) == states[0]
    && forall k, before {:trigger read(before + text(all[k]))} ::
         0 <= k < |all| && read(before) == states[k] ==> read(before + text(all[k])) == states[k + 1]
  }

  lemma {:induction false} JoinedIsRead<T(!new), R(!new)>(all: seq<T>, text: T -> seq<string>, read: seq<string> -> R, states: seq<R>, k: nat)
    requires StepByStep(all, text, read, states) && k <= |all|
    ensures read(Joined(all[..k], text)) == states[k]
  {
    if k == 0 {
      assert Joined(all[..0], text) == [];
    } else {
      JoinedIsRead(all, text, read, states, k - 1);
      assert all[..k][..k - 1] == all[..k - 1];
      assert read(Joined(all[..k - 1], text) + text(all[k - 1])) == states[k];
    }
  }

  /** Reading on from where a reading stands. */
  function ReadingOn(start: Reading): seq<string> -> Reading
    requires start.Valid()
  {
    (more: seq<string>) => ReadAll(start, more)
  }

  function Halfway(file: File, hunk: Hunk): seq<Reading> {
    seq(|hunk.lines| + 1, k requires 0 <= k <= |hunk.lines| => Midway(file, hunk, k))
  }

  lemma LinesComeBack(file: File, hunk: Hunk)
    requires Numbered(hunk)
    ensures ReadAll(Midway(file, hunk, 0), LinesText(hunk.lines)) == Midway(file, hunk, |hunk.lines|)
  {
    var start := Midway(file, hunk, 0);
    var read, states := ReadingOn(start), Halfway(file, hunk);
    forall k, before | 0 <= k < |hunk.lines| && read(before) == states[k]
      ensures read(before + LineText(hunk.lines[k])) == states[k + 1]
    {
      ReadAllComposes(start, before, LineText(hunk.lines[k]));
      LineComesBack(file, hunk, k);
    }
    JoinedIsRead(hunk.lines, LineText, read, states, |hunk.lines|);
    assert hunk.lines[..|hunk.lines|] == hunk.lines;
  }

  lemma {:induction false} HeadedStarts(hunk: Hunk)
    requires Headed(hunk)
    ensures StartsWith(hunk.header, "@@")
  {
  }

  lemma {:induction false} OpenedIs(r: Reading, line: string, parsed: Hunk)
    requires r.Valid() && HunkHeader(line) == Some(parsed)
    ensures OpenHunk(r, line) == Reading(WithHunk(r.file, parsed), Some(Counters(parsed.oldStart, parsed.newStart)))
  {
  }

  lemma {:induction false} NothingRead(file: File, hunk: Hunk)
    ensures Midway(file, hunk, 0) == Reading(WithHunk(file, hunk.(lines := [])), Some(Counters(hunk.oldStart, hunk.newStart)))
  {
    assert hunk.lines[..0] == [];
  }

  lemma {:induction false} HeaderOpens(r: Reading, hunk: Hunk)
    requires r.Valid() && Headed(hunk)
    ensures ReadLine(r, hunk.header) == Midway(r.file, hunk, 0)
  {
    HeadedStarts(hunk);
    OpenedIs(r, hunk.header, hunk.(lines := []));
    NothingRead(r.file, hunk);
  }

  function Whole(file: File, hunk: Hunk): (r: Reading)
    ensures r.Valid()
  {
    Reading(WithHunk(file, hunk), Some(NextNumbers(hunk)))
  }

  lemma {:induction false} MidwayIsWhole(file: File, hunk: Hunk)
    ensures Midway(file, hunk, |hunk.lines|) == Whole(file, hunk)
  {
    assert hunk.lines[..|hunk.lines|] == hunk.lines;
    assert hunk == hunk.(lines := hunk.lines);
  }

  lemma {:induction false} HunkComesBack(r: Reading, hunk: Hunk)
    requires r.Valid() && Headed(hunk) && Numbered(hunk)
    ensures ReadAll(r, HunkText(hunk)) == Whole(r.file, hunk)
  {
    ReadAllComposes(r, [hunk.header], LinesText(hunk.lines));
    ReadOne(r, hunk.header);
    HeaderOpens(r, hunk);
    LinesComeBack(r.file, hunk);
    MidwayIsWhole(r.file, hunk);
  }

  lemma {:induction false} OneMoreComesBack(file: File, r: Reading, front: seq<Hunk>, last: Hunk)
    requires r.Valid() && r.file == file.(hunks := front) && WritableHunk(last)
    ensures ReadAll(r, HunkText(last)).file == file.(hunks := front + [last])
  {
    HunkComesBack(r, last);
  }

  predicate AllWritable(hunks: seq<Hunk>) {
    forall h {:trigger WritableHunk(hunks[h])} :: 0 <= h < |hunks| ==> WritableHunk(hunks[h])
  }

  /** Whatever lines `text` is, so that only what is known of reading it counts. */
  predicate ReadTo(r: Reading, text: seq<string>, file: File)
    requires r.Valid()
  {
    ReadAll(r, text).file == file
  }

  /** The files with the first so many hunks. */
  function Growing(file: File, hunks: seq<Hunk>): seq<File> {
    seq(|hunks| + 1, k requires 0 <= k <= |hunks| => file.(hunks := hunks[..k]))
  }

  lemma OneMoreHunkRead(r: Reading, before: seq<string>, front: seq<Hunk>, last: Hunk)
    requires r.Valid() && WritableHunk(last) && ReadTo(r, before, r.file.(hunks := front))
    ensures ReadTo(r, before + HunkText(last), r.file.(hunks := front + [last]))
  {
    ReadAllComposes(r, before, HunkText(last));
    OneMoreComesBack(r.file, ReadAll(r, before), front, last);
  }

  lemma WritableAt(hunks: seq<Hunk>, k: nat)
    requires AllWritable(hunks) && k < |hunks|
    ensures WritableHunk(hunks[k])
  {
  }

  lemma FrontAndNext<T>(all: seq<T>, k: nat)
    requires k < |all|
    ensures all[..k] + [all[k]] == all[..k + 1]
  {
  }

  lemma AllOf<T>(all: seq<T>)
    ensures all[..|all|] == all
  {
  }

  lemma HunkIsStep(r: Reading, hunks: seq<Hunk>, k: nat, before: seq<string>)
    requires r.Valid() && AllWritable(hunks) && k < |hunks| && ReadTo(r, before, r.file.(hunks := hunks[..k]))
    ensures ReadTo(r, before + HunkText(hunks[k]), r.file.(hunks := hunks[..k + 1]))
  {
    WritableAt(hunks, k);
    OneMoreHunkRead(r, before, hunks[..k], hunks[k]);
    FrontAndNext(hunks, k);
  }

  lemma HunksComeBack(r: Reading, hunks: seq<Hunk>)
    requires r.Valid() && r.file.hunks == [] && AllWritable(hunks)
    ensures ReadTo(r, HunksText(hunks), r.file.(hunks := hunks))
  {
    var read, states := (more: seq<string>) => ReadAll(r, more).file, Growing(r.file, hunks);
    forall k, before | 0 <= k < |hunks| && read(before) == states[k]
      ensures read(before + HunkText(hunks[k])) == states[k + 1]
    {
      HunkIsStep(r, hunks, k, before);
    }
    JoinedIsRead(hunks, HunkText, read, states, |hunks|);
    AllOf(hunks);
  }

  // ---------------------------------------------------------------- reading the head of a file back

  /** A line a preamble does not know. */
  lemma PreambleOther(file: File, line: string)
    requires line != "" && (line[0] == 's' || line[0] == 'i')
    ensures Preamble(file, line) == file && !StartsWith(line, "@@")
  {
    OtherStart(line, "rename from ", 0);
    OtherStart(line, "rename to ", 0);
    OtherStart(line, "copy from ", 0);
    OtherStart(line, "new file mode", 0);
    OtherStart(line, "deleted file mode", 0);
    OtherStart(line, "Binary files ", 0);
    OtherStart(line, "GIT binary patch", 0);
    OtherStart(line, "--- ", 0);
    OtherStart(line, "+++ ", 0);
    OtherStart(line, "@@", 0);
  }

  lemma RenameFromIs(file: File, path: string)
    ensures Preamble(file, "rename from " + path) == file.(from := Some(path)) && !StartsWith("rename from " + path, "@@")
  {
    OwnStart("rename from ", path);
    OtherStart("rename from " + path, "@@", 0);
  }

  lemma RenameToIs(file: File, path: string)
    ensures Preamble(file, "rename to " + path) == file.(path := path) && !StartsWith("rename to " + path, "@@")
  {
    var line := "rename to " + path;
    OwnStart("rename to ", path);
    OtherStart(line, "rename from ", 7);
    OtherStart(line, "@@", 0);
  }

  lemma NewFileIs(file: File)
    ensures Preamble(file, "new file mode 100644") == file.(status := FileAdded) && !StartsWith("new file mode 100644", "@@")
  {
    var line := "new file mode 100644";
    assert line == "new file mode" + " 100644";
    OwnStart("new file mode", " 100644");
    OtherStart(line, "rename from ", 0);
    OtherStart(line, "rename to ", 0);
    OtherStart(line, "copy from ", 0);
    OtherStart(line, "@@", 0);
  }

  lemma DeletedFileIs(file: File)
    ensures Preamble(file, "deleted file mode 100644") == file.(status := FileDeleted) && !StartsWith("deleted file mode 100644", "@@")
  {
    var line := "deleted file mode 100644";
    assert line == "deleted file mode" + " 100644";
    OwnStart("deleted file mode", " 100644");
    OtherStart(line, "rename from ", 0);
    OtherStart(line, "rename to ", 0);
    OtherStart(line, "copy from ", 0);
    OtherStart(line, "new file mode", 0);
    OtherStart(line, "@@", 0);
  }

  lemma BinaryIs(file: File, rest: string)
    ensures Preamble(file, "Binary files " + rest) == file.(binary := true) && !StartsWith("Binary files " + rest, "@@")
  {
    var line := "Binary files " + rest;
    OwnStart("Binary files ", rest);
    OtherStart(line, "rename from ", 0);
    OtherStart(line, "rename to ", 0);
    OtherStart(line, "copy from ", 0);
    OtherStart(line, "new file mode", 0);
    OtherStart(line, "deleted file mode", 0);
    OtherStart(line, "@@", 0);
  }

  lemma {:induction false} UpToTab(s: string, stop: string)
    requires '\t' !in s && (stop == "" || stop == "\t")
    ensures BeforeTab(s + stop) == s
  {
    if s != "" {
      UpToTab(s[1..], stop);
      assert (s + stop)[1..] == s[1..] + stop;
    }
  }

  /** What a `---` or `+++` line names. */
  lemma SideIs(start: string, raw: string, stop: string)
    requires |start| == 4 && '\t' !in raw && (raw == "" || raw[0] != '\"') && (stop == "" || stop == "\t")
    ensures SidePath(start + (raw + stop)) == if raw == "/dev/null" then None else Some(Strip(raw))
  {
    assert (start + (raw + stop))[4..] == raw + stop;
    UpToTab(raw, stop);
    OtherStart(raw, "\"", 0);
  }

  lemma SideStarts(line: string)
    requires |line| >= 4 && (line[..4] == "--- " || line[..4] == "+++ ")
    ensures !StartsWith(line, "rename from ") && !StartsWith(line, "rename to ") && !StartsWith(line, "copy from ")
    ensures !StartsWith(line, "new file mode") && !StartsWith(line, "deleted file mode") && !StartsWith(line, "Binary files ")
    ensures !StartsWith(line, "GIT binary patch") && !StartsWith(line, "@@")
    ensures StartsWith(line, "--- ") != StartsWith(line, "+++ ")
  {
    assert line[0] == line[..4][0];
    OtherStart(line, "rename from ", 0);
    OtherStart(line, "rename to ", 0);
    OtherStart(line, "copy from ", 0);
    OtherStart(line, "new file mode", 0);
    OtherStart(line, "deleted file mode", 0);
    OtherStart(line, "Binary files ", 0);
    OtherStart(line, "GIT binary patch", 0);
    OtherStart(line, "@@", 0);
  }

  lemma OldSideIs(file: File, raw: string, stop: string)
    requires '\t' !in raw && (raw == "" || raw[0] != '\"') && (stop == "" || stop == "\t")
    ensures !StartsWith("--- " + (raw + stop), "@@")
    ensures Preamble(file, "--- " + (raw + stop)) ==
              if raw == "/dev/null" then file.(status := FileAdded) else if file.path == "" then file.(path := Strip(raw)) else file
  {
    var line := "--- " + (raw + stop);
    assert line[..4] == "--- ";
    SideStarts(line);
    SideIs("--- ", raw, stop);
  }

  lemma NewSideIs(file: File, raw: string, stop: string)
    requires '\t' !in raw && (raw == "" || raw[0] != '\"') && (stop == "" || stop == "\t")
    ensures !StartsWith("+++ " + (raw + stop), "@@")
    ensures Preamble(file, "+++ " + (raw + stop)) == if raw == "/dev/null" then file.(status := FileDeleted) else file.(path := Strip(raw))
  {
    var line := "+++ " + (raw + stop);
    assert line[..4] == "+++ ";
    SideStarts(line);
    SideIs("+++ ", raw, stop);
  }

  /** What the lines between a file's header and its body make of the file. */
  function Stated(read: File, file: File): File {
    match file.status
    case FileAdded => read.(status := FileAdded)
    case FileDeleted => read.(status := FileDeleted)
    case FileRenamed => read.(from := Some(OldPath(file)), path := file.path)
    case FileModified => read
  }

  lemma PreambleRead(read: File, line: string)
    requires !StartsWith(line, "@@")
    ensures ReadLine(Reading(read, None), line) == Reading(Preamble(read, line), None)
    ensures ReadAll(Reading(read, None), [line]) == Reading(Preamble(read, line), None)
  {
    ReadOne(Reading(read, None), line);
  }

  lemma TwoRead(r: Reading, a: string, b: string)
    requires r.Valid()
    ensures ReadAll(r, [a, b]) == ReadLine(ReadLine(r, a), b)
  {
    assert [a, b] == [a] + [b];
    ReadAllComposes(r, [a], [b]);
    ReadOne(r, a);
    ReadOne(ReadLine(r, a), b);
  }

  lemma {:induction false} StatusComesBack(read: File, file: File)
    ensures ReadAll(Reading(read, None), StatusText(file)) == Reading(Stated(read, file), None)
  {
    match file.status
    case FileAdded =>
      NewFileIs(read);
      PreambleRead(read, "new file mode 100644");
    case FileDeleted =>
      DeletedFileIs(read);
      PreambleRead(read, "deleted file mode 100644");
    case FileModified =>
      PreambleOther(read, "index 83db48f..bf2a1c5 100644");
      PreambleRead(read, "index 83db48f..bf2a1c5 100644");
    case FileRenamed =>
      var first, second, third := "similarity index 90%", "rename from " + OldPath(file), "rename to " + file.path;
      assert StatusText(file) == [first] + [second, third];
      ReadAllComposes(Reading(read, None), [first], [second, third]);
      PreambleOther(read, first);
      PreambleRead(read, first);
      TwoRead(Reading(read, None), second, third);
      RenameFromIs(read, OldPath(file));
      PreambleRead(read, second);
      RenameToIs(read.(from := Some(OldPath(file))), file.path);
      PreambleRead(read.(from := Some(OldPath(file))), third);
  }

  lemma PlainIsRaw(start: string, path: string)
    requires Plain(path) && (start == "a/" || start == "b/")
    ensures '\t' !in start + path && (start + path)[0] != '\"' && start + path != "/dev/null" && Strip(start + path) == path
  {
    assert (start + path)[..2] == start;
  }

  lemma SidesAre(file: File, first: string, second: string)
    requires first == "--- " + if file.status.FileAdded? then "/dev/null" + "" else "a/" + OldPath(file) + Stop(OldPath(file))
    requires second == "+++ " + if file.status.FileDeleted? then "/dev/null" + "" else "b/" + file.path + Stop(file.path)
    ensures SidesText(file) == [first, second]
  {
    assert "/dev/null" + "" == "/dev/null";
  }

  /** Once a side is read the path is the file's own; a side that names no file says what became of it. */
  lemma {:induction false} SidesComeBack(read: File, file: File)
    requires Plain(file.path) && Plain(OldPath(file))
    ensures ReadAll(Reading(read, None), SidesText(file)) ==
              Reading(read.(path := if !file.status.FileDeleted? then file.path else if read.path == "" then OldPath(file) else read.path,
                            status := if file.status.FileAdded? then FileAdded
                                      else if file.status.FileDeleted? then FileDeleted else read.status), None)
  {
    var older := if file.status.FileAdded? then "/dev/null" else "a/" + OldPath(file);
    var newer := if file.status.FileDeleted? then "/dev/null" else "b/" + file.path;
    PlainIsRaw("a/", OldPath(file));
    PlainIsRaw("b/", file.path);
    var oldStop := if file.status.FileAdded? then "" else Stop(OldPath(file));
    var newStop := if file.status.FileDeleted? then "" else Stop(file.path);
    var first, second := "--- " + (older + oldStop), "+++ " + (newer + newStop);
    SidesAre(file, first, second);
    TwoRead(Reading(read, None), first, second);
    OldSideIs(read, older, oldStop);
    PreambleRead(read, first);
    var next := Preamble(read, first);
    NewSideIs(next, newer, newStop);
    PreambleRead(next, second);
  }

  lemma {:induction false} BinaryBody(read: File, file: File)
    requires file.binary
    ensures ReadAll(Reading(read, None), BodyText(file)).file == read.(binary := true)
  {
    var rest := "a/" + OldPath(file) + " and b/" + file.path + " differ";
    assert BodyText(file) == ["Binary files " + rest] by {
      assert "Binary files a/" == "Binary files " + "a/";
      assert "Binary files a/" + OldPath(file) + " and b/" + file.path + " differ" == "Binary files " + rest;
    }
    BinaryIs(read, rest);
    PreambleRead(read, "Binary files " + rest);
  }

  lemma {:induction false} BodyComesBack(read: File, file: File)
    requires Writable(file) && read.hunks == [] && !read.binary && read.path == file.path
    requires read.status == if file.status.FileRenamed? then FileModified else file.status
    ensures ReadAll(Reading(read, None), BodyText(file)).file == read.(binary := file.binary, hunks := file.hunks)
  {
    if file.binary {
      BinaryBody(read, file);
    } else if file.hunks == [] {
      assert ReadAll(Reading(read, None), []).file == read;
    } else {
      ReadAllComposes(Reading(read, None), SidesText(file), HunksText(file.hunks));
      SidesComeBack(read, file);
      HunksComeBack(ReadAll(Reading(read, None), SidesText(file)), file.hunks);
    }
  }

  // ---------------------------------------------------------------- the header

  predicate CutAt(s: string, at: nat) {
    at + 3 <= |s| && s[at..at + 3] == " b/"
  }

  /** Somewhere in the path there is what parts the two paths of a header. */
  predicate Ambiguous(path: string) {
    exists at: nat | at < |path| :: CutAt(path, at)
  }

  lemma {:induction false} LastAtIs(s: string, from: int, at: nat)
    requires at <= from <= |s| - 3 && CutAt(s, at) && forall k: nat :: at < k <= from ==> !CutAt(s, k)
    ensures LastAt(s, " b/", from) == at
    decreases from
  {
    if from > at {
      assert !CutAt(s, from);
      LastAtIs(s, from - 1, at);
    }
  }

  lemma {:induction false} LastAtFinds(s: string, from: int, at: nat)
    requires at <= from <= |s| - 3 && CutAt(s, at)
    ensures LastAt(s, " b/", from) >= at
    decreases from
  {
    if LastAt(s, " b/", from) != from {
      LastAtFinds(s, from - 1, at);
    }
  }

  lemma HeaderCuts(older: string, path: string)
    requires Plain(older) && Plain(path)
    ensures var rest := "a/" + older + " b/" + path;
            && |rest| == 5 + |older| + |path| && CutAt(rest, 2 + |older|) && rest[..2 + |older|] == "a/" + older
            && rest[3 + |older|..] == "b/" + path && !StartsWith(rest, "\"")
            && (forall k: nat :: k > 2 + |older| ==> (CutAt(rest, k) <==> k >= 5 + |older| && CutAt(path, k - 5 - |older|)))
  {
    var rest := "a/" + older + " b/" + path;
    OtherStart(rest, "\"", 0);
    forall k: nat | k > 2 + |older| && k + 3 <= |rest|
      ensures CutAt(rest, k) <==> k >= 5 + |older| && CutAt(path, k - 5 - |older|)
    {
      if k < 5 + |older| {
        assert rest[k..k + 3][0] == rest[k];
      } else {
        assert rest[k..k + 3] == path[k - 5 - |older|..k - 2 - |older|];
      }
    }
  }

  lemma {:induction false} HeaderUnquoted(rest: string, cut: nat)
    requires !StartsWith(rest, "\"") && |rest| >= 3 && LastAt(rest, " b/", |rest| - 3) == cut
    ensures HeaderPaths(rest) == PathsFrom(Strip(rest[cut + 1..]), Strip(rest[..cut]))
  {
  }

  /** A header is read as its two paths, unless the second holds what parts them. */
  lemma {:induction false} HeaderOfPlain(older: string, path: string)
    requires Plain(older) && Plain(path) && !Ambiguous(path)
    ensures HeaderPaths("a/" + older + " b/" + path) == PathsFrom(path, older)
  {
    HeaderCuts(older, path);
    PlainIsRaw("a/", older);
    PlainIsRaw("b/", path);
    HeaderAt("a/" + older + " b/" + path, 2 + |older|);
  }

  lemma {:induction false} HeaderAt(rest: string, cut: nat)
    requires !StartsWith(rest, "\"") && CutAt(rest, cut) && forall k: nat :: k > cut ==> !CutAt(rest, k)
    ensures HeaderPaths(rest) == PathsFrom(Strip(rest[cut + 1..]), Strip(rest[..cut]))
  {
    LastAtIs(rest, |rest| - 3, cut);
    HeaderUnquoted(rest, cut);
  }

  /** Otherwise a file that kept its path is taken for one that came from elsewhere. */
  lemma {:induction false} HeaderOfAmbiguous(path: string)
    requires Plain(path) && Ambiguous(path)
    ensures HeaderPaths("a/" + path + " b/" + path).from.Some?
  {
    var rest := "a/" + path + " b/" + path;
    HeaderCuts(path, path);
    var at: nat :| at < |path| && CutAt(path, at);
    assert CutAt(rest, 5 + |path| + at);
    assert rest[..2 + |path|][..2] == "a/";
    HeaderPast(rest, 2 + |path|, 5 + |path| + at);
  }

  /** Cut past its middle, a header is read as two different paths. */
  lemma {:induction false} HeaderPast(rest: string, middle: nat, at: nat)
    requires !StartsWith(rest, "\"") && CutAt(rest, at) && middle < at && |rest| == 2 * middle + 1 && rest[..middle][..2] == "a/"
    ensures HeaderPaths(rest).from.Some?
  {
    LastAtFinds(rest, |rest| - 3, at);
    var cut := LastAt(rest, " b/", |rest| - 3);
    HeaderUnquoted(rest, cut);
    assert rest[..cut][..2] == rest[..middle][..2];
    HalvesDiffer(rest, middle, cut);
  }

  lemma {:induction false} HalvesDiffer(rest: string, middle: nat, cut: nat)
    requires CutAt(rest, cut) && middle < cut && |rest| == 2 * middle + 1 && rest[..cut][..2] == "a/"
    ensures Strip(rest[cut + 1..]) != Strip(rest[..cut])
  {
    assert rest[cut + 1..][..2] == rest[cut..cut + 3][1..] == "b/";
    assert |Strip(rest[..cut])| == cut - 2 && |Strip(rest[cut + 1..])| == |rest| - cut - 3;
  }

  // ---------------------------------------------------------------- the whole file

  lemma {:induction false} EndedLines(lines: seq<string>)
    requires forall i :: 0 <= i < |lines| ==> '\n' !in lines[i]
    ensures Lines(Ended(lines)) == lines && Tail(Ended(lines)) == ""
  {
    if lines != [] {
      EndedLines(lines[1..]);
      FirstEnded(lines[0], Ended(lines[1..]));
      assert lines == [lines[0]] + lines[1..];
    }
  }

  lemma {:induction false} FirstEnded(line: string, rest: string)
    requires '\n' !in line
    ensures Lines(line + "\n" + rest) == [line] + Lines(rest) && Tail(line + "\n" + rest) == Tail(rest)
  {
    var text := line + "\n" + rest;
    assert text[..|line|] == line && text[|line| + 1..] == rest;
    LinesSplit(text, |line|, line, rest);
  }

  predicate NoBreaks(lines: seq<string>) {
    forall i :: 0 <= i < |lines| ==> '\n' !in lines[i] && !IsFileStart(lines[i])
  }

  lemma BreaksCompose(a: seq<string>, b: seq<string>)
    requires NoBreaks(a) && NoBreaks(b)
    ensures NoBreaks(a + b)
  {
  }

  lemma OwnLine(start: string, rest: string)
    requires '\n' !in start && '\n' !in rest && start != "" && start[0] != 'd'
    ensures NoBreaks([start + rest])
  {
    OtherStart(start + rest, DIFF, 0);
  }

  lemma {:induction false} LinesHaveNoBreaks(lines: seq<Line>)
    requires forall k :: 0 <= k < |lines| ==> '\n' !in lines[k].text
    ensures NoBreaks(LinesText(lines))
  {
    if lines != [] {
      var last := lines[|lines| - 1];
      LinesHaveNoBreaks(lines[..|lines| - 1]);
      OwnLine([Marker(last.kind)], last.text);
      OwnLine(NO_NEWLINE, "");
      assert NO_NEWLINE + "" == NO_NEWLINE;
      BreaksCompose(LinesText(lines[..|lines| - 1]), LineText(last));
    }
  }

  lemma {:induction false} HunksHaveNoBreaks(hunks: seq<Hunk>)
    requires forall h :: 0 <= h < |hunks| ==> WritableHunk(hunks[h])
    ensures NoBreaks(HunksText(hunks))
  {
    if hunks != [] {
      var last := hunks[|hunks| - 1];
      HunksHaveNoBreaks(hunks[..|hunks| - 1]);
      assert WritableHunk(last);
      assert last.header[0] == last.header[..2][0];
      OwnLine(last.header, "");
      assert last.header + "" == last.header;
      LinesHaveNoBreaks(last.lines);
      BreaksCompose([last.header], LinesText(last.lines));
      BreaksCompose(HunksText(hunks[..|hunks| - 1]), HunkText(last));
    }
  }

  lemma {:induction false} StatusHasNoBreaks(file: File)
    requires Plain(file.path) && Plain(OldPath(file))
    ensures NoBreaks(StatusText(file))
  {
    match file.status
    case FileAdded => OwnLine("new file mode 100644", "");
    case FileDeleted => OtherStart("deleted file mode 100644", DIFF, 1);
    case FileModified => OwnLine("index 83db48f..bf2a1c5 100644", "");
    case FileRenamed =>
      OwnLine("similarity index 90%", "");
      OwnLine("rename from ", OldPath(file));
      OwnLine("rename to ", file.path);
      BreaksCompose(["similarity index 90%" + ""], ["rename from " + OldPath(file)]);
      BreaksCompose(["similarity index 90%" + ""] + ["rename from " + OldPath(file)], ["rename to " + file.path]);
      assert "similarity index 90%" + "" == "similarity index 90%";
      assert StatusText(file) == ["similarity index 90%" + ""] + ["rename from " + OldPath(file)] + ["rename to " + file.path];
  }

  lemma {:induction false} SidesHaveNoBreaks(file: File)
    requires Plain(file.path) && Plain(OldPath(file))
    ensures NoBreaks(SidesText(file))
  {
    var older := if file.status.FileAdded? then "/dev/null" else "a/" + OldPath(file) + Stop(OldPath(file));
    var newer := if file.status.FileDeleted? then "/dev/null" else "b/" + file.path + Stop(file.path);
    OwnLine("--- ", older);
    OwnLine("+++ ", newer);
    BreaksCompose(["--- " + older], ["+++ " + newer]);
    assert SidesText(file) == ["--- " + older] + ["+++ " + newer];
  }

  lemma {:induction false} BodyHasNoBreaks(file: File)
    requires Writable(file)
    ensures NoBreaks(BodyText(file))
  {
    if file.binary {
      OtherStart(BodyText(file)[0], DIFF, 0);
    } else if file.hunks != [] {
      SidesHaveNoBreaks(file);
      HunksHaveNoBreaks(file.hunks);
      BreaksCompose(SidesText(file), HunksText(file.hunks));
    }
  }

  lemma {:induction false} RunIsReadAll(done: seq<File>, r: Reading, lines: seq<string>)
    requires r.Valid() && NoBreaks(lines)
    ensures Run(Parse(done, Some(r)), lines) == Parse(done, Some(ReadAll(r, lines)))
  {
    if lines != [] {
      RunIsReadAll(done, r, lines[..|lines| - 1]);
    }
  }

  function HeaderLine(file: File): string {
    DIFF + ("a/" + OldPath(file) + " b/" + file.path)
  }

  lemma {:induction false} LinesOfEnded(first: string, rest: seq<string>)
    requires '\n' !in first && NoBreaks(rest)
    ensures PatchLines(Ended([first] + rest)) == [first] + rest
  {
    EndedLines([first] + rest);
  }

  lemma {:induction false} HeaderIsOneLine(file: File)
    requires Plain(file.path) && Plain(OldPath(file))
    ensures '\n' !in HeaderLine(file)
  {
  }

  lemma {:induction false} PrintedLines(file: File)
    requires Writable(file)
    ensures PatchLines(Printed(file)) == [HeaderLine(file)] + (StatusText(file) + BodyText(file))
    ensures NoBreaks(StatusText(file) + BodyText(file))
  {
    StatusHasNoBreaks(file);
    BodyHasNoBreaks(file);
    BreaksCompose(StatusText(file), BodyText(file));
    HeaderIsOneLine(file);
    LinesOfEnded(HeaderLine(file), StatusText(file) + BodyText(file));
    TextIsHeaderFirst([HeaderLine(file)], StatusText(file), BodyText(file));
  }

  lemma TextIsHeaderFirst(header: seq<string>, status: seq<string>, body: seq<string>)
    ensures header + status + body == header + (status + body)
  {
  }

  lemma {:induction false} HeaderThenRest(header: string, rest: seq<string>)
    requires NoBreaks(rest)
    ensures Run(Parse([], None), [DIFF + header] + rest) == Parse([], Some(ReadAll(Fresh(HeaderPaths(header)), rest)))
  {
    var empty := Parse([], None);
    OwnStart(DIFF, header);
    StartsAfresh(empty, DIFF + header);
    RunComposes(empty, [DIFF + header], rest);
    RunIsReadAll([], Fresh(HeaderPaths(header)), rest);
  }

  /** Reading a file written out is reading its lines into what its header begins. */
  lemma {:induction false} PrintedIsRead(file: File)
    requires Writable(file)
    ensures Parsed(Printed(file)) ==
              [Settled(ReadAll(Fresh(HeaderPaths("a/" + OldPath(file) + " b/" + file.path)), StatusText(file) + BodyText(file)).file)]
  {
    PrintedLines(file);
    HeaderThenRest("a/" + OldPath(file) + " b/" + file.path, StatusText(file) + BodyText(file));
  }

  /** A written file comes back as it was, its header being read as its two paths. */
  lemma {:induction false} PlainComesBack(file: File, paths: Paths)
    requires Writable(file)
    requires paths.path == file.path || file.status.FileRenamed?
    requires !file.status.FileRenamed? ==> paths.from == None
    ensures Settled(ReadAll(Fresh(paths), StatusText(file) + BodyText(file)).file) == file
  {
    var read := Fresh(paths).file;
    ReadAllComposes(Fresh(paths), StatusText(file), BodyText(file));
    StatusComesBack(read, file);
    BodyComesBack(Stated(read, file), file);
  }

  /** A file that kept its path is still taken for one that came from elsewhere if its header was read so. */
  lemma {:induction false} FromIsKept(file: File, paths: Paths)
    requires Writable(file) && !file.status.FileRenamed?
    ensures Settled(ReadAll(Fresh(paths), StatusText(file) + BodyText(file)).file).from == paths.from
  {
    var read := Stated(Fresh(paths).file, file);
    ReadAllComposes(Fresh(paths), StatusText(file), BodyText(file));
    StatusComesBack(Fresh(paths).file, file);
    if file.binary {
      BinaryBody(read, file);
    } else if file.hunks == [] {
      assert ReadAll(Reading(read, None), []).file == read;
    } else {
      ReadAllComposes(Reading(read, None), SidesText(file), HunksText(file.hunks));
      SidesComeBack(read, file);
      HunksComeBack(ReadAll(Reading(read, None), SidesText(file)), file.hunks);
    }
  }

  /**
   * Written and read back, a file is what it was, paths, status, numbers, kinds, texts and all, exactly when it was moved
   * or its path does not hold what parts the two paths of a header.
   */
  lemma {:induction false} FileComesBack(file: File)
    requires Writable(file)
    ensures Parsed(Printed(file)) == [file] <==> file.status.FileRenamed? || !Ambiguous(file.path)
  {
    var paths := HeaderPaths("a/" + OldPath(file) + " b/" + file.path);
    PrintedIsRead(file);
    if file.status.FileRenamed? {
      PlainComesBack(file, paths);
    } else if Ambiguous(file.path) {
      HeaderOfAmbiguous(file.path);
      FromIsKept(file, paths);
    } else {
      HeaderOfPlain(file.path, file.path);
      PlainComesBack(file, paths);
    }
  }

  // ---------------------------------------------------------------- a whole patch

  function PatchText(files: seq<File>): string {
    if files == [] then "" else Printed(files[0]) + PatchText(files[1..])
  }

  /** The path of the file is read off its header as it was. */
  predicate Telling(file: File) {
    file.status.FileRenamed? || !Ambiguous(file.path)
  }

  lemma {:induction false} EndedEnds(lines: seq<string>)
    requires lines != []
    ensures Ended(lines) != "" && Ended(lines)[|Ended(lines)| - 1] == '\n'
  {
    if |lines| > 1 {
      EndedEnds(lines[1..]);
    } else {
      assert Ended(lines) == lines[0] + "\n" + "";
    }
  }

  lemma {:induction false} PrintedStarts(file: File)
    ensures StartsWith(Printed(file), DIFF) && Printed(file)[|Printed(file)| - 1] == '\n'
  {
    EndedEnds(FileText(file));
    var text := FileText(file);
    assert text[0] == HeaderLine(file);
    assert Printed(file) == text[0] + "\n" + Ended(text[1..]);
    assert Printed(file)[..|DIFF|] == HeaderLine(file)[..|DIFF|] == DIFF;
  }

  predicate AllTelling(files: seq<File>) {
    forall f :: 0 <= f < |files| ==> Telling(files[f])
  }

  ghost predicate FilesWritable(files: seq<File>) {
    forall f :: 0 <= f < |files| ==> Writable(files[f])
  }

  lemma FirstAndRest(first: File, rest: seq<File>)
    ensures FilesWritable([first] + rest) ==> Writable(first) && FilesWritable(rest)
    ensures AllTelling([first] + rest) <==> Telling(first) && AllTelling(rest)
  {
    var files := [first] + rest;
    assert files[0] == first && forall f :: 0 <= f < |rest| ==> files[f + 1] == rest[f];
  }

  lemma OneThenMany<T>(q: seq<T>, r: seq<T>, first: T, rest: seq<T>)
    requires |q| == 1 && |r| == |rest|
    ensures q + r == [first] + rest <==> q == [first] && r == rest
  {
    assert (q + r)[0] == q[0] && (q + r)[1..] == r && ([first] + rest)[1..] == rest;
  }

  lemma {:induction false} MoreComesBack(first: File, rest: seq<File>)
    requires FilesWritable([first] + rest)
    ensures |Parsed(PatchText([first] + rest))| == 1 + |rest|
    ensures Parsed(PatchText([first] + rest)) == [first] + rest <==> AllTelling([first] + rest)
    decreases |rest|
  {
    FirstAndRest(first, rest);
    PatchComesBack(rest);
    PrintedIsRead(first);
    FileComesBack(first);
    OneByOne(first, rest);
    OneThenMany(Parsed(Printed(first)), Parsed(PatchText(rest)), first, rest);
  }

  /** A patch of any number of files, written and read back, is those files exactly when each header tells its path. */
  lemma {:induction false} PatchComesBack(files: seq<File>)
    requires FilesWritable(files)
    ensures |Parsed(PatchText(files))| == |files|
    ensures Parsed(PatchText(files)) == files <==> AllTelling(files)
    decreases |files|, 0
  {
    if files == [] {
      assert Parsed("") == [];
    } else {
      assert files == [files[0]] + files[1..];
      MoreComesBack(files[0], files[1..]);
    }
  }

  lemma {:induction false} OneByOne(first: File, rest: seq<File>)
    ensures Parsed(PatchText([first] + rest)) == Parsed(Printed(first)) + Parsed(PatchText(rest))
  {
    var files := [first] + rest;
    assert files[1..] == rest;
    PrintedStarts(first);
    if rest == [] {
      assert Printed(first) + "" == Printed(first);
      assert Parsed("") == [];
    } else {
      PrintedStarts(rest[0]);
      assert PatchText(rest)[..|DIFF|] == Printed(rest[0])[..|DIFF|];
      ParsedOfBoth(Printed(first), PatchText(rest));
    }
  }
}
