/**
 * Two runs of one task, file by file (src/shared/runCompare.ts): a patch cut at each `diff --git` holds, piece by
 * piece, exactly the files of the whole.
 */
module RunCompare {
  import opened Patch
  import opened Sorting
  import opened Text
  import opened Wrappers

  // ---------------------------------------------------------------- pieces

  /** A file starts at `i`, on a line after the first. */
  predicate CutAt(patch: string, i: nat) {
    0 < i <= |patch| && patch[i - 1] == '\n' && StartsWith(patch[i..], DIFF)
  }

  /** The first place to cut at or after `from`, or the end. */
  function NextCut(patch: string, from: nat): (at: nat)
    requires from <= |patch|
    ensures from <= at <= |patch|
    ensures at < |patch| ==> CutAt(patch, at)
    ensures forall j :: from <= j < at ==> !CutAt(patch, j)
    decreases |patch| - from
  {
    if from == |patch| || CutAt(patch, from) then from else NextCut(patch, from + 1)
  }

  /** The patch cut wherever a file starts; the empty patch is one empty piece. */
  function Pieces(patch: string): (pieces: seq<string>)
    ensures pieces != []
  {
    var at := NextCut(patch, if patch == "" then 0 else 1);
    if at == |patch| then [patch] else [patch[..at]] + Pieces(patch[at..])
  }

  function Joined(pieces: seq<string>): string {
    if pieces == [] then "" else pieces[0] + Joined(pieces[1..])
  }

  /** Cutting loses no text. */
  lemma {:induction false} PiecesJoin(patch: string)
    ensures Joined(Pieces(patch)) == patch
    decreases |patch|
  {
    var at := NextCut(patch, if patch == "" then 0 else 1);
    if at < |patch| {
      PiecesJoin(patch[at..]);
      assert ([patch[..at]] + Pieces(patch[at..]))[1..] == Pieces(patch[at..]);
      assert patch[..at] + patch[at..] == patch;
    } else {
      assert [patch][1..] == [];
      assert Joined([]) == "";
    }
  }

  // ---------------------------------------------------------------- lines and pieces

  lemma {:induction false} EndedTail(s: string)
    requires s == "" || s[|s| - 1] == '\n'
    ensures Tail(s) == ""
    decreases |s|
  {
    var at := NewlineIn(s);
    if at >= 0 {
      assert s[at + 1..] == "" || s[at + 1..][|s[at + 1..]| - 1] == s[|s| - 1];
      EndedTail(s[at + 1..]);
    }
  }

  lemma LinesOfBoth(p: string, q: string)
    requires p == "" || p[|p| - 1] == '\n'
    ensures PatchLines(p + q) == PatchLines(p) + PatchLines(q)
  {
    EndedTail(p);
    LinesCompose(p, q);
    assert "" + q == q;
    assert PatchLines(p) == Lines(p);
    Associate(Lines(p), Lines(q), if Tail(q) == "" then [] else [Tail(q)]);
  }

  lemma StartIsInLine(s: string, start: string, at: nat)
    requires EndsLine(s, at) && '\n' !in start
    ensures StartsWith(s[..at], start) <==> StartsWith(s, start)
  {
    if StartsWith(s, start) {
      assert forall k :: 0 <= k < |start| ==> s[k] == s[..|start|][k];
      assert |start| <= at;
    }
    assert |start| <= at ==> s[..at][..|start|] == s[..|start|];
  }

  lemma DiffIsInLine()
    ensures '\n' !in DIFF
  {
  }

  lemma FirstOfLines(s: string)
    requires s != ""
    ensures PatchLines(s) != [] && PatchLines(s)[0] == if NewlineIn(s) == -1 then s else s[..NewlineIn(s)]
  {
  }

  lemma FirstLineStarts(s: string, start: string)
    requires s != "" && '\n' !in start
    ensures PatchLines(s) != [] && (StartsWith(PatchLines(s)[0], start) <==> StartsWith(s, start))
  {
    var at := NewlineIn(s);
    FirstOfLines(s);
    if at >= 0 {
      StartIsInLine(s, start, at);
      assert PatchLines(s)[0] == s[..at];
    } else {
      assert PatchLines(s)[0] == s;
    }
  }

  /** The first line of a text that starts a file starts a file, and only of such a text. */
  lemma FirstLine(s: string)
    requires s != ""
    ensures PatchLines(s) != [] && (IsFileStart(PatchLines(s)[0]) <==> StartsWith(s, DIFF))
  {
    DiffIsInLine();
    FirstLineStarts(s, DIFF);
  }

  lemma SettledOfBoth(a: seq<File>, b: seq<File>)
    ensures AllSettled(a + b) == AllSettled(a) + AllSettled(b)
  {
  }

  /** Parsing is file by file: cut where a file starts, a patch reads as its two parts do. */
  lemma ParsedOfBoth(p: string, q: string)
    requires (p == "" || p[|p| - 1] == '\n') && StartsWith(q, DIFF)
    ensures Parsed(p + q) == Parsed(p) + Parsed(q)
  {
    var empty := Parse([], None);
    var first := Run(empty, PatchLines(p));
    LinesOfBoth(p, q);
    FirstLine(q);
    RunComposes(empty, PatchLines(p), PatchLines(q));
    FromFileStart(first, PatchLines(q));
    SettledOfBoth(first.Files(), Run(empty, PatchLines(q)).Files());
  }

  function Concat<T>(parts: seq<seq<T>>): seq<T> {
    if parts == [] then [] else parts[0] + Concat(parts[1..])
  }

  lemma {:induction false} ConcatThen<T>(parts: seq<seq<T>>, last: seq<T>)
    ensures Concat(parts + [last]) == Concat(parts) + last
  {
    if parts == [] {
      assert (parts + [last])[1..] == [];
    } else {
      ConcatThen(parts[1..], last);
      assert (parts + [last])[1..] == parts[1..] + [last];
      Associate(parts[0], Concat(parts[1..]), last);
    }
  }

  lemma ConcatFirst<T>(first: seq<T>, parts: seq<seq<T>>)
    ensures Concat([first] + parts) == first + Concat(parts)
  {
    assert ([first] + parts)[1..] == parts;
  }

  function Each<T>(read: string -> seq<T>, pieces: seq<string>): (parts: seq<seq<T>>)
    ensures |parts| == |pieces| && forall i :: 0 <= i < |pieces| ==> parts[i] == read(pieces[i])
  {
    seq(|pieces|, i requires 0 <= i < |pieces| => read(pieces[i]))
  }

  lemma EachOfCons<T>(read: string -> seq<T>, first: string, rest: seq<string>)
    ensures Concat(Each(read, [first] + rest)) == read(first) + Concat(Each(read, rest))
  {
    assert Each(read, [first] + rest) == [read(first)] + Each(read, rest);
    ConcatFirst(read(first), Each(read, rest));
  }

  /** Reading two parts of a patch, the second from a file's start, is reading the whole. */
  ghost predicate ReadsByFile<T>(read: string -> seq<T>) {
    forall p, q {:trigger read(p + q)} :: (p == "" || p[|p| - 1] == '\n') && StartsWith(q, DIFF) ==> read(p + q) == read(p) + read(q)
  }

  /** Whatever reads a patch file by file reads the same from the pieces, in order. */
  lemma {:induction false} PiecesReadAlike<T>(patch: string, read: string -> seq<T>)
    requires ReadsByFile(read)
    ensures Concat(Each(read, Pieces(patch))) == read(patch)
    decreases |patch|
  {
    var at := NextCut(patch, if patch == "" then 0 else 1);
    if at < |patch| {
      var front, rest := patch[..at], patch[at..];
      PiecesReadAlike(rest, read);
      EachOfCons(read, front, Pieces(rest));
      assert patch == front + rest;
      assert front[|front| - 1] == '\n';
      assert read(front + rest) == read(front) + read(rest);
    } else {
      EachOfCons(read, patch, []);
      assert [patch] + [] == [patch];
    }
  }

  const READ: string -> seq<File> := patch => Parsed(patch)

  /** The pieces hold exactly the files of the whole, in order. */
  lemma PiecesHoldEveryFile(patch: string)
    ensures Concat(Each(READ, Pieces(patch))) == Parsed(patch)
  {
    forall p, q {:trigger READ(p + q)} | (p == "" || p[|p| - 1] == '\n') && StartsWith(q, DIFF)
      ensures READ(p + q) == READ(p) + READ(q)
    {
      ParsedOfBoth(p, q);
    }
    PiecesReadAlike(patch, READ);
  }

  // ---------------------------------------------------------------- one file a piece

  lemma RestOfLines(s: string)
    requires NewlineIn(s) >= 0
    ensures PatchLines(s) == [s[..NewlineIn(s)]] + PatchLines(s[NewlineIn(s) + 1..])
  {
    var rest := s[NewlineIn(s) + 1..];
    Associate([s[..NewlineIn(s)]], Lines(rest), if Tail(rest) == "" then [] else [Tail(rest)]);
  }

  lemma LaterCut(s: string, at: nat, j: nat)
    requires at < |s| && CutAt(s[at + 1..], j)
    ensures CutAt(s, at + 1 + j)
  {
    assert s[at + 1 + j..] == s[at + 1..][j..];
  }

  lemma CutAfterLine(s: string, at: nat)
    requires at < |s| && s[at] == '\n' && StartsWith(s[at + 1..], DIFF)
    ensures CutAt(s, at + 1)
  {
  }

  lemma OneLine(s: string)
    requires NewlineIn(s) == -1
    ensures |PatchLines(s)| <= 1
  {
  }

  /** A later line that starts a file is a place to cut. */
  lemma {:induction false} LaterStartIsCut(s: string, k: nat) returns (i: nat)
    requires 0 < k < |PatchLines(s)| && IsFileStart(PatchLines(s)[k])
    ensures CutAt(s, i)
    decreases |s|
  {
    if NewlineIn(s) == -1 {
      OneLine(s);
    }
    var at: nat := NewlineIn(s);
    var rest := s[at + 1..];
    RestOfLines(s);
    if k == 1 {
      FirstLine(rest);
      CutAfterLine(s, at);
      i := at + 1;
    } else {
      var j := LaterStartIsCut(rest, k - 1);
      LaterCut(s, at, j);
      i := at + 1 + j;
    }
  }

  lemma {:induction false} OneFileFromThere(p: Parse, lines: seq<string>)
    requires p.Valid() && p.done == [] && forall k :: 0 <= k < |lines| ==> !IsFileStart(lines[k])
    ensures Run(p, lines).done == []
  {
    if lines != [] {
      OneFileFromThere(p, lines[..|lines| - 1]);
    }
  }

  /** A piece with no place to cut holds one file at most. */
  lemma UncutIsOneFile(piece: string)
    requires forall i :: 0 < i < |piece| ==> !CutAt(piece, i)
    ensures |Parsed(piece)| <= 1
  {
    var lines := PatchLines(piece);
    var empty := Parse([], None);
    forall k | 0 < k < |lines|
      ensures !IsFileStart(lines[k])
    {
      if IsFileStart(lines[k]) {
        var i := LaterStartIsCut(piece, k);
      }
    }
    if lines != [] {
      assert lines == lines[..1] + lines[1..];
      RunComposes(empty, lines[..1], lines[1..]);
      assert lines[..1][..0] == [];
      OneFileFromThere(Step(empty, lines[0]), lines[1..]);
    }
  }

  lemma PrefixCut(patch: string, at: nat, i: nat)
    requires at <= |patch| && CutAt(patch[..at], i)
    ensures CutAt(patch, i)
  {
    assert patch[i..][..|DIFF|] == patch[..at][i..][..|DIFF|];
  }

  lemma FirstPieceIsUncut(patch: string, at: nat)
    requires at <= |patch| && forall j :: 1 <= j < at ==> !CutAt(patch, j)
    ensures |Parsed(patch[..at])| <= 1
  {
    forall i | 0 < i < at
      ensures !CutAt(patch[..at], i)
    {
      if CutAt(patch[..at], i) {
        PrefixCut(patch, at, i);
      }
    }
    UncutIsOneFile(patch[..at]);
  }

  lemma PieceAt(patch: string, k: nat) returns (at: nat)
    requires k < |Pieces(patch)|
    ensures at <= |patch| && forall j :: 1 <= j < at ==> !CutAt(patch, j)
    ensures k == 0 ==> Pieces(patch)[k] == patch[..at]
    ensures k > 0 ==> 0 < at < |patch| && k - 1 < |Pieces(patch[at..])| && Pieces(patch)[k] == Pieces(patch[at..])[k - 1]
  {
    at := NextCut(patch, if patch == "" then 0 else 1);
    assert patch[..|patch|] == patch;
  }

  lemma {:induction false} PiecesAreUncut(patch: string, k: nat)
    requires k < |Pieces(patch)|
    ensures |Parsed(Pieces(patch)[k])| <= 1
    decreases |patch|
  {
    var at := PieceAt(patch, k);
    if k == 0 {
      FirstPieceIsUncut(patch, at);
    } else {
      PiecesAreUncut(patch[at..], k - 1);
    }
  }

  // ---------------------------------------------------------------- by file

  datatype RunFile = RunFile(patch: string, added: nat, removed: nat)

  function CountIn(lines: seq<Line>, kind: LineKind): nat {
    if lines == [] then 0 else (if lines[0].kind == kind then 1 else 0) + CountIn(lines[1..], kind)
  }

  function CountOf(hunks: seq<Hunk>, kind: LineKind): nat {
    if hunks == [] then 0 else CountIn(hunks[0].lines, kind) + CountOf(hunks[1..], kind)
  }

  /** One run's change to one file: the text it was cut from, and the lines it adds and removes. */
  function RunFileOf(text: string, file: File): RunFile {
    RunFile(text, CountOf(file.hunks, Added), CountOf(file.hunks, Removed))
  }

  function WithPiece(files: map<string, RunFile>, text: string, parsed: seq<File>): map<string, RunFile> {
    if parsed == [] then files else files[parsed[0].path := RunFileOf(text, parsed[0])]
  }

  /** The table of some pieces, given what each was read as. */
  function Table(pieces: seq<string>, parts: seq<seq<File>>): map<string, RunFile>
    requires |pieces| == |parts|
  {
    if pieces == [] then map[]
    else
      var last := |pieces| - 1;
      WithPiece(Table(pieces[..last], parts[..last]), pieces[last], parts[last])
  }

  function ByFile(patch: string): map<string, RunFile> {
    Table(Pieces(patch), Each(READ, Pieces(patch)))
  }

  lemma TableOne(pieces: seq<string>, parts: seq<seq<File>>, i: nat)
    requires i < |pieces| == |parts|
    ensures Table(pieces[..i + 1], parts[..i + 1]) == WithPiece(Table(pieces[..i], parts[..i]), pieces[i], parts[i])
  {
    assert pieces[..i + 1][..i] == pieces[..i] && parts[..i + 1][..i] == parts[..i];
  }

  method PatchByFile(patch: string) returns (files: map<string, RunFile>)
    ensures files == ByFile(patch)
  {
    files := TakePieces(Pieces(patch));
  }

  method TakePieces(pieces: seq<string>) returns (files: map<string, RunFile>)
    ensures files == Table(pieces, Each(READ, pieces))
  {
    ghost var parts := Each(READ, pieces);
    files := map[];
    for i := 0 to |pieces|
      invariant files == Table(pieces[..i], parts[..i])
    {
      TableOne(pieces, parts, i);
      assert parts[i] == READ(pieces[i]);
      files := TakePiece(files, pieces[i]);
    }
    assert pieces[..|pieces|] == pieces && parts[..|pieces|] == parts;
  }

  method TakePiece(files: map<string, RunFile>, text: string) returns (next: map<string, RunFile>)
    ensures next == WithPiece(files, text, READ(text))
  {
    var parsed := ParsePatch(text);
    next := files;
    if parsed != [] {
      next := files[parsed[0].path := RunFileOf(text, parsed[0])];
    }
  }

  /** The last file of a path. */
  function LastOf(files: seq<File>, path: string): (file: Option<File>)
    ensures file.Some? <==> exists i :: 0 <= i < |files| && files[i].path == path
    ensures file.Some? ==> file.value in files && file.value.path == path
  {
    if files == [] then None
    else if files[|files| - 1].path == path then Some(files[|files| - 1])
    else LastOf(files[..|files| - 1], path)
  }

  lemma LastOfMore(files: seq<File>, more: seq<File>, path: string)
    requires |more| <= 1
    ensures LastOf(files + more, path) ==
              if more != [] && more[0].path == path then Some(more[0]) else LastOf(files, path)
  {
    if more == [] {
      assert files + more == files;
    } else {
      assert (files + more)[..|files + more| - 1] == files;
    }
  }

  /** The file was cut from a piece that was read as that file alone. */
  ghost predicate CutFrom(run: RunFile, file: File, pieces: seq<string>, parts: seq<seq<File>>)
    requires |pieces| == |parts|
  {
    exists k :: 0 <= k < |pieces| && parts[k] == [file] && run == RunFileOf(pieces[k], file)
  }

  /** The file of a path is the last of that path. */
  ghost predicate Holding(files: map<string, RunFile>, pieces: seq<string>, parts: seq<seq<File>>, path: string)
    requires |pieces| == |parts|
  {
    var last := LastOf(Concat(parts), path);
    (path in files <==> last.Some?) && (last.Some? ==> CutFrom(files[path], last.value, pieces, parts))
  }

  lemma CutFromMore(run: RunFile, file: File, pieces: seq<string>, parts: seq<seq<File>>, n: nat)
    requires n <= |pieces| == |parts| && CutFrom(run, file, pieces[..n], parts[..n])
    ensures CutFrom(run, file, pieces, parts)
  {
    var k :| 0 <= k < n && parts[..n][k] == [file] && run == RunFileOf(pieces[..n][k], file);
    assert parts[k] == [file] && pieces[k] == pieces[..n][k];
  }

  lemma ConcatLast(parts: seq<seq<File>>, n: nat, path: string)
    requires |parts| == n + 1 && |parts[n]| <= 1
    ensures LastOf(Concat(parts), path) ==
              if parts[n] != [] && parts[n][0].path == path then Some(parts[n][0]) else LastOf(Concat(parts[..n]), path)
  {
    assert parts == parts[..n] + [parts[n]];
    ConcatThen(parts[..n], parts[n]);
    LastOfMore(Concat(parts[..n]), parts[n], path);
  }

  lemma {:induction false} TableHolds(pieces: seq<string>, parts: seq<seq<File>>, path: string)
    requires |pieces| == |parts| && forall k :: 0 <= k < |parts| ==> |parts[k]| <= 1
    ensures Holding(Table(pieces, parts), pieces, parts, path)
  {
    if pieces != [] {
      var n := |pieces| - 1;
      TableHolds(pieces[..n], parts[..n], path);
      ConcatLast(parts, n, path);
      if parts[n] != [] && parts[n][0].path == path {
        assert parts[n] == [parts[n][0]];
      } else if LastOf(Concat(parts[..n]), path).Some? {
        CutFromMore(Table(pieces[..n], parts[..n])[path], LastOf(Concat(parts[..n]), path).value, pieces, parts, n);
      }
    }
  }

  /** Cutting a patch up by file loses no path, and keeps for each the last file the whole patch has of it. */
  lemma PatchByFileLosesNothing(patch: string, path: string)
    ensures path in ByFile(patch) <==> LastOf(Parsed(patch), path).Some?
    ensures path in ByFile(patch) ==>
              var file := LastOf(Parsed(patch), path).value;
              exists k :: 0 <= k < |Pieces(patch)| && Parsed(Pieces(patch)[k]) == [file]
                          && ByFile(patch)[path] == RunFileOf(Pieces(patch)[k], file)
  {
    var pieces := Pieces(patch);
    var parts := Each(READ, pieces);
    forall k | 0 <= k < |pieces|
      ensures |parts[k]| <= 1
    {
      PiecesAreUncut(patch, k);
    }
    TableHolds(pieces, parts, path);
    PiecesHoldEveryFile(patch);
    if path in ByFile(patch) {
      var file := LastOf(Parsed(patch), path).value;
      var k :| 0 <= k < |pieces| && parts[k] == [file] && ByFile(patch)[path] == RunFileOf(pieces[k], file);
      assert Parsed(pieces[k]) == [file];
    }
  }

  // ---------------------------------------------------------------- two runs

  /** The same change: equal from the hunks down, or the same text where nothing is shown. */
  predicate SameChange(one: RunFile, other: RunFile) {
    var a, b := Parsed(one.patch), Parsed(other.patch);
    a != [] && b != [] &&
    if a[0].binary then one.patch == other.patch
    else a[0].status == b[0].status && a[0].from == b[0].from && a[0].binary == b[0].binary && a[0].hunks == b[0].hunks
  }

  /** A change is the same as itself, and as another both ways or neither. */
  lemma SameChangeIsMutual(one: RunFile, other: RunFile)
    ensures SameChange(one, other) == SameChange(other, one)
    ensures Parsed(one.patch) != [] ==> SameChange(one, one)
  {
  }

  datatype ComparedFile = ComparedFile(path: string, left: Option<RunFile>, right: Option<RunFile>, same: bool)

  function Get(files: map<string, RunFile>, path: string): Option<RunFile> {
    if path in files then Some(files[path]) else None
  }

  function Compared(left: map<string, RunFile>, right: map<string, RunFile>, path: string): ComparedFile {
    var one, other := Get(left, path), Get(right, path);
    ComparedFile(path, one, other, one.Some? && other.Some? && SameChange(one.value, other.value))
  }

  /** One row for each path either run touched, in order, each saying what each run did there. */
  ghost predicate Compares(rows: seq<ComparedFile>, left: map<string, RunFile>, right: map<string, RunFile>, names: (string, string) -> bool) {
    && (forall i, j :: 0 <= i < j < |rows| ==> rows[i].path != rows[j].path && names(rows[i].path, rows[j].path))
    && (forall i :: 0 <= i < |rows| ==> rows[i] == Compared(left, right, rows[i].path))
    && (forall path :: path in left.Keys + right.Keys <==> exists i :: 0 <= i < |rows| && rows[i].path == path)
  }

  method Listed(keys: set<string>) returns (paths: seq<string>)
    ensures multiset(paths) == multiset(keys)
  {
    paths := [];
    var rest := keys;
    while rest != {}
      invariant rest <= keys && multiset(paths) == multiset(keys - rest)
      decreases |rest|
    {
      var path :| path in rest;
      paths := paths + [path];
      rest := rest - {path};
      assert keys - rest == (keys - (rest + {path})) + {path};
    }
    assert keys - rest == keys;
  }

  lemma SortedKeys(keys: set<string>, paths: seq<string>, names: (string, string) -> bool)
    requires TotalOrder(names) && Ordered(paths, names) && multiset(paths) == multiset(keys)
    ensures forall i, j :: 0 <= i < j < |paths| ==> paths[i] != paths[j]
    ensures forall path :: path in keys <==> path in paths
  {
    forall i, j | 0 <= i < j < |paths|
      ensures paths[i] != paths[j]
    {
      if paths[i] == paths[j] {
        TwiceIsTwo(paths, i, j);
      }
    }
    forall path
      ensures path in keys <==> path in paths
    {
      assert path in multiset(keys) <==> path in multiset(paths);
    }
  }

  function RowsFor(paths: seq<string>, left: map<string, RunFile>, right: map<string, RunFile>): (rows: seq<ComparedFile>)
    ensures |rows| == |paths| && forall i :: 0 <= i < |paths| ==> rows[i] == Compared(left, right, paths[i])
  {
    seq(|paths|, i requires 0 <= i < |paths| => Compared(left, right, paths[i]))
  }

  lemma RowsCompare(paths: seq<string>, left: map<string, RunFile>, right: map<string, RunFile>, names: (string, string) -> bool)
    requires Ordered(paths, names) && forall path :: path in left.Keys + right.Keys <==> path in paths
    requires forall i, j :: 0 <= i < j < |paths| ==> paths[i] != paths[j]
    ensures Compares(RowsFor(paths, left, right), left, right, names)
  {
    var rows := RowsFor(paths, left, right);
    forall i | 0 <= i < |rows|
      ensures rows[i].path == paths[i]
    {
    }
    forall path
      ensures path in left.Keys + right.Keys <==> exists i :: 0 <= i < |rows| && rows[i].path == path
    {
      if path in paths {
        var i :| 0 <= i < |paths| && paths[i] == path;
        assert rows[i].path == path;
      }
    }
  }

  method CompareRuns(left: string, right: string, names: (string, string) -> bool) returns (rows: seq<ComparedFile>)
    requires TotalOrder(names)
    ensures Compares(rows, ByFile(left), ByFile(right), names)
  {
    var ours := PatchByFile(left);
    var theirs := PatchByFile(right);
    var listed := Listed(ours.Keys + theirs.Keys);
    var paths := Sort(listed, names);
    SortedIsOrdered(listed, names);
    SortedKeys(ours.Keys + theirs.Keys, paths, names);
    RowsCompare(paths, ours, theirs, names);
    rows := RowsFor(paths, ours, theirs);
  }

  /** A row as the comparison the other way round has it. */
  function Swapped(row: ComparedFile): ComparedFile {
    row.(left := row.right, right := row.left)
  }

  predicate Lists(paths: seq<string>, keys: set<string>, names: (string, string) -> bool) {
    && Ordered(paths, names) && (forall i, j :: 0 <= i < j < |paths| ==> paths[i] != paths[j])
    && (forall path :: path in paths ==> path in keys) && (forall path :: path in keys ==> path in paths)
  }

  /** There is one way to list some paths in order. */
  lemma OneListing(a: seq<string>, b: seq<string>, keys: set<string>, names: (string, string) -> bool)
    requires TotalOrder(names) && Lists(a, keys, names) && Lists(b, keys, names)
    ensures a == b
  {
    ListedOnce(a, keys, names);
    ListedOnce(b, keys, names);
    OneOrder(a, b, names);
  }

  lemma ListedOnce(paths: seq<string>, keys: set<string>, names: (string, string) -> bool)
    requires Lists(paths, keys, names)
    ensures multiset(paths) == multiset(keys)
  {
    forall path
      ensures multiset(paths)[path] == multiset(keys)[path]
    {
      NoMoreThanOnce(paths, path);
      assert path in multiset(paths) <==> path in paths;
    }
  }

  lemma {:induction false} NoMoreThanOnce(paths: seq<string>, path: string)
    requires forall i, j :: 0 <= i < j < |paths| ==> paths[i] != paths[j]
    ensures multiset(paths)[path] <= 1
  {
    if paths != [] {
      var front, last := paths[..|paths| - 1], paths[|paths| - 1];
      NoMoreThanOnce(front, path);
      assert paths == front + [last];
      assert path == last ==> path !in front;
    }
  }

  function PathsOf(rows: seq<ComparedFile>): (paths: seq<string>)
    ensures |paths| == |rows| && forall i :: 0 <= i < |rows| ==> paths[i] == rows[i].path
  {
    seq(|rows|, i requires 0 <= i < |rows| => rows[i].path)
  }

  lemma ComparesLists(rows: seq<ComparedFile>, left: map<string, RunFile>, right: map<string, RunFile>, names: (string, string) -> bool)
    requires Compares(rows, left, right, names)
    ensures Lists(PathsOf(rows), left.Keys + right.Keys, names)
  {
    var paths := PathsOf(rows);
    forall i | 0 <= i < |paths|
      ensures paths[i] in left.Keys + right.Keys
    {
      assert rows[i].path == paths[i];
    }
    forall path | path in left.Keys + right.Keys
      ensures path in paths
    {
      var i :| 0 <= i < |rows| && rows[i].path == path;
      assert paths[i] == path;
    }
  }

  /** Comparing the runs the other way round gives the same rows, sides exchanged and the same ones called the same. */
  lemma ComparisonSwaps(there: seq<ComparedFile>, back: seq<ComparedFile>, left: map<string, RunFile>,
                        right: map<string, RunFile>, names: (string, string) -> bool)
    requires TotalOrder(names) && Compares(there, left, right, names) && Compares(back, right, left, names)
    ensures |back| == |there| && forall i :: 0 <= i < |there| ==> back[i] == Swapped(there[i])
  {
    ComparesLists(there, left, right, names);
    ComparesLists(back, right, left, names);
    assert left.Keys + right.Keys == right.Keys + left.Keys;
    OneListing(PathsOf(there), PathsOf(back), left.Keys + right.Keys, names);
    forall i | 0 <= i < |there|
      ensures back[i] == Swapped(there[i])
    {
      assert PathsOf(there)[i] == PathsOf(back)[i];
      assert there[i] == Compared(left, right, there[i].path) && back[i] == Compared(right, left, back[i].path);
      if there[i].left.Some? && there[i].right.Some? {
        SameChangeIsMutual(there[i].left.value, there[i].right.value);
      }
    }
  }
}
