/**
 * Two runs as git writes them, cut up, counted and compared (src/shared/runCompare.ts): every row says what each run did to
 * the path, and calls the two the same exactly when they are.
 */
module RunPrint {
  import opened Patch
  import opened PatchPrint
  import opened RunCompare
  import opened Text
  import opened Wrappers

  // ---------------------------------------------------------------- a piece a file

  lemma {:induction false} StartHasAFile(patch: string)
    requires StartsWith(patch, DIFF)
    ensures Parsed(patch) != []
  {
    var lines, empty := PatchLines(patch), Parse([], None);
    FirstLine(patch);
    assert lines == [lines[0]] + lines[1..];
    StartsAfresh(empty, lines[0]);
    RunComposes(empty, [lines[0]], lines[1..]);
    RunBehind([], Step(empty, lines[0]), lines[1..]);
  }

  /** What follows a line's end has no say in how that line starts. */
  lemma StartBeforeEnd(text: string, rest: string, i: nat, start: string)
    requires i < |text| && text[|text| - 1] == '\n' && '\n' !in start && StartsWith((text + rest)[i..], start)
    ensures StartsWith(text[i..], start)
  {
    var seen := (text + rest)[i..];
    assert seen[|text| - 1 - i] == '\n';
    forall k | 0 <= k < |start|
      ensures seen[k] != '\n'
    {
      assert seen[k] == seen[..|start|][k] == start[k];
    }
    assert seen[..|start|] == text[i..][..|start|];
  }

  /** The text of one file is cut nowhere but at its end. */
  lemma {:induction false} OneFileIsUncut(text: string, rest: string, i: nat)
    requires 0 < i < |text| && text[|text| - 1] == '\n' && StartsWith(text, DIFF) && |Parsed(text)| == 1
    ensures !RunCompare.CutAt(text + rest, i)
  {
    if RunCompare.CutAt(text + rest, i) {
      DiffIsInLine();
      StartBeforeEnd(text, rest, i, DIFF);
      var front, back := text[..i], text[i..];
      assert text == front + back && front[i - 1] == '\n';
      StartBeforeEnd(front, back, 0, DIFF);
      assert front[0..] == front;
      TwoFiles(front, back);
    }
  }

  lemma {:induction false} TwoFiles(front: string, back: string)
    requires front != "" && front[|front| - 1] == '\n' && StartsWith(front, DIFF) && StartsWith(back, DIFF)
    ensures |Parsed(front + back)| >= 2
  {
    ParsedOfBoth(front, back);
    StartHasAFile(front);
    StartHasAFile(back);
  }

  lemma {:induction false} PrintedIsUncut(file: File, rest: string, i: nat)
    requires Writable(file) && 0 < i < |Printed(file)|
    ensures !RunCompare.CutAt(Printed(file) + rest, i)
  {
    PrintedIsRead(file);
    PrintedStarts(file);
    OneFileIsUncut(Printed(file), rest, i);
  }

  lemma {:induction false} NextCutIs(patch: string, from: nat, at: nat)
    requires from <= at <= |patch| && (at == |patch| || RunCompare.CutAt(patch, at))
    requires forall i :: from <= i < at ==> !RunCompare.CutAt(patch, i)
    ensures NextCut(patch, from) == at
    decreases at - from
  {
    if from < at {
      NextCutIs(patch, from + 1, at);
    }
  }

  function EachPrinted(files: seq<File>): (texts: seq<string>)
    ensures |texts| == |files| && forall i :: 0 <= i < |files| ==> texts[i] == Printed(files[i])
  {
    if files == [] then [] else [Printed(files[0])] + EachPrinted(files[1..])
  }

  lemma {:induction false} FirstPiece(text: string, rest: string)
    requires text != "" && forall i :: 1 <= i < |text| ==> !RunCompare.CutAt(text + rest, i)
    requires rest == "" || (|text + rest| > |text| && RunCompare.CutAt(text + rest, |text|))
    ensures Pieces(text + rest) == if rest == "" then [text] else [text] + Pieces(rest)
  {
    var patch := text + rest;
    NextCutIs(patch, 1, |text|);
    if rest == "" {
      assert patch == text;
    } else {
      assert patch[..|text|] == text && patch[|text|..] == rest;
    }
  }

  /** A written patch is cut into the files it was written from. */
  lemma {:induction false} PiecesOfPrinted(files: seq<File>)
    requires FilesWritable(files) && files != []
    ensures Pieces(PatchText(files)) == EachPrinted(files)
  {
    var first, rest := files[0], files[1..];
    PrintedStarts(first);
    forall i | 1 <= i < |Printed(first)|
      ensures !RunCompare.CutAt(Printed(first) + PatchText(rest), i)
    {
      PrintedIsUncut(first, PatchText(rest), i);
    }
    if rest != [] {
      PiecesOfPrinted(rest);
      CutsBetween(first, rest);
    }
    FirstPiece(Printed(first), PatchText(rest));
  }

  lemma CutAtEnd(text: string, rest: string)
    requires text != "" && text[|text| - 1] == '\n' && StartsWith(rest, DIFF)
    ensures RunCompare.CutAt(text + rest, |text|) && |text + rest| > |text|
  {
    assert (text + rest)[|text|..] == rest;
  }

  lemma StartOfMore(text: string, rest: string, start: string)
    requires StartsWith(text, start)
    ensures StartsWith(text + rest, start)
  {
    assert (text + rest)[..|start|] == text[..|start|];
  }

  lemma {:induction false} CutsBetween(first: File, rest: seq<File>)
    requires rest != []
    ensures |Printed(first)| > 0 && RunCompare.CutAt(Printed(first) + PatchText(rest), |Printed(first)|)
    ensures |Printed(first) + PatchText(rest)| > |Printed(first)|
  {
    PrintedStarts(first);
    PrintedStarts(rest[0]);
    StartOfMore(Printed(rest[0]), PatchText(rest[1..]), DIFF);
    CutAtEnd(Printed(first), PatchText(rest));
  }

  // ---------------------------------------------------------------- by file

  predicate OnePathEach(files: seq<File>) {
    forall i, j :: 0 <= i < j < |files| ==> files[i].path != files[j].path
  }

  function FileOf(files: seq<File>, path: string): (file: Option<File>)
    ensures file.Some? ==> file.value in files && file.value.path == path
    ensures file.None? ==> forall f :: f in files ==> f.path != path
  {
    if files == [] then None else if files[0].path == path then Some(files[0]) else FileOf(files[1..], path)
  }

  /** A file's text, and how many lines it adds and takes away. */
  function Summary(file: File): RunFile {
    RunFile(Printed(file), CountOf(file.hunks, Added), CountOf(file.hunks, Removed))
  }

  lemma {:induction false} LastIsThe(files: seq<File>, file: File)
    requires OnePathEach(files) && file in files
    ensures LastOf(files, file.path) == Some(file)
  {
    var last := files[|files| - 1];
    if last != file {
      var k :| 0 <= k < |files| && files[k] == file;
      assert last.path != file.path;
      assert files[..|files| - 1][k] == file;
      LastIsThe(files[..|files| - 1], file);
    }
  }

  lemma LastIsNone(files: seq<File>, path: string)
    requires forall f :: f in files ==> f.path != path
    ensures LastOf(files, path).None?
  {
  }

  lemma {:induction false} PrintedTells(file: File)
    requires Writable(file) && Telling(file)
    ensures Parsed(Printed(file)) == [file]
  {
    FileComesBack(file);
  }

  /** A written run, cut up by file, has for each path the file's own text and counts. */
  lemma {:induction false} ByFileOfPrinted(files: seq<File>, path: string)
    requires FilesWritable(files) && AllTelling(files) && OnePathEach(files) && files != []
    ensures Get(ByFile(PatchText(files)), path) == if FileOf(files, path).None? then None else Some(Summary(FileOf(files, path).value))
  {
    var patch := PatchText(files);
    PatchComesBack(files);
    PiecesOfPrinted(files);
    PatchByFileLosesNothing(patch, path);
    var found := FileOf(files, path);
    if found.None? {
      LastIsNone(files, path);
    } else {
      LastIsThe(files, found.value);
      var k :| 0 <= k < |Pieces(patch)|
        && Parsed(Pieces(patch)[k]) == [found.value] && ByFile(patch)[path] == RunFileOf(Pieces(patch)[k], found.value);
      WritableIn(files, files[k]);
      PieceIsSummary(Pieces(patch)[k], files[k], found.value);
    }
  }

  lemma PieceIsSummary(piece: string, written: File, file: File)
    requires Writable(written) && Telling(written) && piece == Printed(written) && Parsed(piece) == [file]
    ensures RunFileOf(piece, file) == Summary(file)
  {
    PrintedTells(written);
  }

  lemma NothingByFile(path: string)
    ensures Get(ByFile(""), path) == None
  {
    PatchByFileLosesNothing("", path);
    assert Parsed("") == [];
  }

  lemma {:induction false} RunByFile(files: seq<File>, path: string)
    requires FilesWritable(files) && AllTelling(files) && OnePathEach(files)
    ensures Get(ByFile(PatchText(files)), path) == if FileOf(files, path).None? then None else Some(Summary(FileOf(files, path).value))
  {
    if files == [] {
      NothingByFile(path);
    } else {
      ByFileOfPrinted(files, path);
    }
  }

  lemma {:induction false} SameIsEqual(one: File, other: File)
    requires Writable(one) && Writable(other) && Telling(one) && Telling(other) && one.path == other.path
    ensures SameChange(Summary(one), Summary(other)) <==> one == other
  {
    PrintedTells(one);
    PrintedTells(other);
  }

  /**
   * The comparison of two runs, from the files each wrote: a row has each run's own text and counts for the path, or none,
   * and calls them the same exactly when both made the one change.
   */
  lemma {:induction false} RowOfPrinted(left: seq<File>, right: seq<File>, path: string)
    requires FilesWritable(left) && AllTelling(left) && OnePathEach(left)
    requires FilesWritable(right) && AllTelling(right) && OnePathEach(right)
    ensures var one, other := FileOf(left, path), FileOf(right, path);
            Compared(ByFile(PatchText(left)), ByFile(PatchText(right)), path)
            == ComparedFile(path,
                            if one.None? then None else Some(Summary(one.value)),
                            if other.None? then None else Some(Summary(other.value)),
                            one.Some? && one == other)
  {
    RunByFile(left, path);
    RunByFile(right, path);
    var one, other := FileOf(left, path), FileOf(right, path);
    if one.Some? && other.Some? {
      WritableIn(left, one.value);
      WritableIn(right, other.value);
      SameIsEqual(one.value, other.value);
    }
  }

  lemma WritableIn(files: seq<File>, file: File)
    requires FilesWritable(files) && AllTelling(files) && file in files
    ensures Writable(file) && Telling(file)
  {
  }

  // ---------------------------------------------------------------- the counts

  predicate IsAt<T>(all: seq<T>, holds: T -> bool, k: int) {
    0 <= k < |all| && holds(all[k])
  }

  function PlacesWhere<T>(all: seq<T>, holds: T -> bool): set<int> {
    set k | 0 <= k < |all| && IsAt(all, holds, k)
  }

  lemma PlacesOfOneMore<T>(front: seq<T>, last: T, holds: T -> bool)
    ensures |PlacesWhere(front + [last], holds)| == |PlacesWhere(front, holds)| + if holds(last) then 1 else 0
  {
    var all, n := front + [last], |front|;
    assert forall k :: k < n ==> (IsAt(all, holds, k) <==> IsAt(front, holds, k));
    assert PlacesWhere(all, holds) == PlacesWhere(front, holds) + if IsAt(all, holds, n) then {n} else {};
  }

  function OfKind(kind: LineKind): Line -> bool {
    (line: Line) => line.kind == kind
  }

  lemma {:induction false} CountsOfCons(line: Line, rest: seq<Line>, kind: LineKind)
    ensures CountIn([line] + rest, kind) == (if line.kind == kind then 1 else 0) + CountIn(rest, kind)
  {
    assert ([line] + rest)[1..] == rest;
  }

  lemma {:induction false} CountsCompose(a: seq<Line>, b: seq<Line>, kind: LineKind)
    ensures CountIn(a + b, kind) == CountIn(a, kind) + CountIn(b, kind)
  {
    if a == [] {
      assert a + b == b;
    } else {
      CountsCompose(a[1..], b, kind);
      assert a + b == [a[0]] + (a[1..] + b);
      CountsOfCons(a[0], a[1..] + b, kind);
    }
  }

  /** A count is how many lines of a hunk are of the kind. */
  lemma {:induction false} CountIsPlaces(lines: seq<Line>, kind: LineKind)
    ensures CountIn(lines, kind) == |PlacesWhere(lines, OfKind(kind))|
  {
    if lines == [] {
      assert PlacesWhere(lines, OfKind(kind)) == {};
    } else {
      var n := |lines| - 1;
      var front, last := lines[..n], [lines[n]];
      assert lines == front + last;
      CountIsPlaces(front, kind);
      CountsCompose(front, last, kind);
      CountsOfCons(lines[n], [], kind);
      assert last == [lines[n]] + [];
      PlacesOfOneMore(front, lines[n], OfKind(kind));
    }
  }

  function SizeBefore(hunks: seq<Hunk>): nat {
    if hunks == [] then 0 else Before(hunks[0].lines) + SizeBefore(hunks[1..])
  }

  function SizeAfter(hunks: seq<Hunk>): nat {
    if hunks == [] then 0 else After(hunks[0].lines) + SizeAfter(hunks[1..])
  }

  lemma {:induction false} CountsOfLines(lines: seq<Line>)
    ensures After(lines) + CountIn(lines, Removed) == Before(lines) + CountIn(lines, Added)
  {
    if lines != [] {
      var n := |lines| - 1;
      CountsOfLines(lines[..n]);
      assert lines == lines[..n] + [lines[n]];
      CountsCompose(lines[..n], [lines[n]], Added);
      CountsCompose(lines[..n], [lines[n]], Removed);
      CountsOfCons(lines[n], [], Added);
      CountsOfCons(lines[n], [], Removed);
      assert [lines[n]] == [lines[n]] + [];
    }
  }

  /** What is added, less what is removed, is how many more lines the hunks have after the change than before it. */
  lemma {:induction false} CountsBalance(hunks: seq<Hunk>)
    ensures SizeAfter(hunks) + CountOf(hunks, Removed) == SizeBefore(hunks) + CountOf(hunks, Added)
  {
    if hunks != [] {
      CountsOfLines(hunks[0].lines);
      CountsBalance(hunks[1..]);
    }
  }
}
