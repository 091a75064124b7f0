/**
 When the scan of a diff is exact. It hands the line scanner exactly the added lines of the files that are not
 skipped, with their path and their line number in the new file, if and only if the names of the files that
 matter are read as they are and no such line is broken, provided the pieces behind the breaks of other lines
 do not look like diff lines. That proviso is exact as well: a text with a piece that does spoils some diff.
 */
module DiffExact {
  import opened Options
  import opened PythonDigits
  import opened TextLines
  import opened DiffScan
  import opened GitDiff
  import opened DiffFiles

  // ---------------------------------------------------------------------------------------------
  // Exactness.
  // ---------------------------------------------------------------------------------------------

  // A file with added lines that are to be scanned.
  predicate Wanted(fd: FileDiff, skip: string -> bool) {
    fd.target.Present? && !skip(fd.target.name.path) && Added(fd.script, 0) != []
  }

  // Both names are shown plainly and unbroken, and the new one does not end in white space.
  predicate Readable(fd: FileDiff) {
    && Recognised(fd.source) && Unbroken(PythonBreaks, Label("a/", fd.source))
    && fd.target.Present? && fd.target.name.Plain? && fd.target.name.path != ""
    && Unbroken(PythonBreaks, fd.target.name.path)
    && !IsSpace(fd.target.name.path[|fd.target.name.path| - 1])
  }

  // A wanted file is read under its name, and a file that is not wanted and adds lines under a name that is
  // not scanned, which for a quoted name is the name as shown.
  predicate NamesFit(fd: FileDiff, skip: string -> bool) {
    if Wanted(fd, skip) then Readable(fd)
    else Added(fd.script, 0) == [] || !Scannable(Opened(ReadPath(fd), skip))
  }

  // No piece behind a break spoils the scan of the file, the wanted lines aside: in a header none looks like a
  // header line, below it none looks like a diff line, and in a file that is not scanned all are contained.
  predicate Harmless(fd: FileDiff, skip: string -> bool) {
    && HeaderQuiet(fd)
    && forall l | l in RenderScript(fd.script, 0, 0) ::
         if Scannable(Opened(ReadPath(fd), skip))
         then (Wanted(fd, skip) && StartsWith(l, "+")) || NeutralBehind(l)
         else ContainedBehind(l, skip)
  }

  predicate AddedUnbroken(fd: FileDiff) {
    forall a | a in Added(fd.script, 0) :: Unbroken(PythonBreaks, a.1)
  }

  lemma {:induction false} StripRightShortens(s: string)
    ensures |StripRight(s)| <= |s| && (s != "" && IsSpace(s[|s| - 1]) ==> |StripRight(s)| < |s|)
    ensures StripRight(s) <= s
  {
    if s != "" && IsSpace(s[|s| - 1]) { StripRightShortens(s[..|s| - 1]); }
  }

  lemma StripRightKeeps(s: string)
    ensures StripRight(s) == s <==> s == "" || !IsSpace(s[|s| - 1])
  {
    StripRightShortens(s);
  }

  /** The scan reads a file under its own name if and only if both names are shown plainly and unbroken and the
      new one does not end in white space. */
  lemma ReadsNameIff(fd: FileDiff)
    requires WellFormed(fd) && fd.target.Present?
    ensures ReadPath(fd) == Some(fd.target.name.path) <==> Readable(fd)
  {
    hide Label, StripRight, First;
    var path := fd.target.name.path;
    assert WellFormedName(fd.target.name);
    match fd.target.name
    case Plain(_, _) =>
      var f := First(PythonBreaks, path);
      StripRightShortens(f);
      StripRightKeeps(path);
    case Quoted(_, shown) =>
      var q := "\"b/" + shown + "\"";
      var f := First(PythonBreaks, q);
      StripRightShortens(f);
      if Unbroken(PythonBreaks, shown) {
        assert Unbroken(PythonBreaks, q) && f == q && !IsSpace(q[|q| - 1]);
        StripRightKeeps(q);
        assert |StripRight(f)| > |path|;
      } else {
        assert forall c | c in StripRight(f) :: c in f;
        assert Unbroken(PythonBreaks, StripRight(f));
      }
  }

  lemma {:induction false} PlusLineIsAdded(script: seq<Segment>, ob: nat, nb: nat, l: string)
    requires l in RenderScript(script, ob, nb) && StartsWith(l, "+")
    ensures exists a :: a in Added(script, nb) && l == "+" + a.1
    decreases script
  {
    match script[0]
    case Gap(ls) => PlusLineIsAdded(script[1..], ob + |ls|, nb + |ls|, l);
    case Hunk(ls, heading) =>
      var rest := RenderScript(script[1..], ob + OldCount(ls), nb + NewCount(ls));
      if l in rest {
        PlusLineIsAdded(script[1..], ob + OldCount(ls), nb + NewCount(ls), l);
        var a :| a in Added(script[1..], nb + NewCount(ls)) && l == "+" + a.1;
        assert a in Added(script, nb);
      } else {
        assert HunkHeader(ob, OldCount(ls), nb, NewCount(ls), heading)[0] == '@';
        PlusLineInHunk(ls, nb, l);
        var a :| a in AddedInLines(ls, nb) && l == "+" + a.1;
        assert a in Added(script, nb);
      }
  }

  lemma {:induction false} PlusLineInHunk(ls: seq<Line>, before: nat, l: string)
    requires l in RenderLines(ls) && StartsWith(l, "+")
    ensures exists a :: a in AddedInLines(ls, before) && l == "+" + a.1
  {
    if ls[0].Add? && l == RenderLine(ls[0]) {
      assert (before + 1, ls[0].text) in AddedInLines(ls, before);
    } else {
      if !ls[0].Add? { assert RenderLine(ls[0])[0] != '+'; }
      assert l in RenderLines(ls[1..]);
      var next := if ls[0].Keep? || ls[0].Add? then before + 1 else before;
      PlusLineInHunk(ls[1..], next, l);
      var a :| a in AddedInLines(ls[1..], next) && l == "+" + a.1;
      assert a in AddedInLines(ls, before);
    }
  }

  lemma {:induction false} RequestsUnbroken(st: State, lines: seq<string>, skip: string -> bool)
    requires forall l | l in lines :: Unbroken(PythonBreaks, l)
    ensures forall r | r in Requests(st, lines, skip) :: Unbroken(PythonBreaks, r.text)
    decreases lines
  {
    if lines != [] {
      RequestsUnbroken(Step(st, lines[0], skip), lines[1..], skip);
      assert lines[0] in lines;
      hide Step, HunkStart;
      forall r | r in Emit(st, lines[0]) ensures Unbroken(PythonBreaks, r.text) {
        assert forall c | c in r.text :: c in lines[0];
      }
    }
  }

  lemma {:induction false} PiecesUnbroken(lines: seq<string>, crlf: seq<bool>)
    requires |lines| == |crlf|
    ensures forall p | p in AllPieces(lines, crlf) :: Unbroken(PythonBreaks, p)
  {
    if lines != [] { PiecesUnbroken(lines[1..], crlf[1..]); }
  }

  // What is handed on for a file that is scanned, when all pieces behind breaks are neutral.
  lemma NeutralFile(st: State, fd: FileDiff, crlf: seq<bool>, skip: string -> bool)
    requires WellFormed(fd) && HeaderQuiet(fd) && |crlf| == |RenderFile(fd)|
    requires forall l | l in RenderScript(fd.script, 0, 0) :: NeutralBehind(l)
    ensures Requests(st, AllPieces(RenderFile(fd), crlf), skip) ==
            Yield(Opened(ReadPath(fd), skip), HeadsOf(Added(fd.script, 0)))
  {
    hide Yield, HeadsOf, Requests, AllPieces, NeutralBehind, RenderScript, HasHunk, HeaderQuiet, ReadPath, Label;
    var ready := Opened(ReadPath(fd), skip);
    if HasHunk(fd.script) {
      FileHeaderScan(st, fd, crlf, skip);
      ScriptScan(ready, fd.script, 0, 0, crlf[Offset(fd)..], skip);
    } else {
      NoHunkScan(st, fd, crlf, skip);
      NoHunkNoText(fd.script, 0, 0);
      NothingYields(ready);
    }
  }

  lemma UnscannedFile(st: State, fd: FileDiff, crlf: seq<bool>, skip: string -> bool)
    requires WellFormed(fd) && HeaderQuiet(fd) && |crlf| == |RenderFile(fd)|
    requires !Scannable(Opened(ReadPath(fd), skip))
    requires forall l | l in RenderScript(fd.script, 0, 0) :: ContainedBehind(l, skip)
    ensures Requests(st, AllPieces(RenderFile(fd), crlf), skip) == []
  {
    hide Requests, AllPieces, ContainedBehind, RenderScript, HasHunk, HeaderQuiet, ReadPath, Label;
    if HasHunk(fd.script) {
      FileHeaderScan(st, fd, crlf, skip);
      UnscannedScript(Opened(ReadPath(fd), skip), fd.script, 0, 0, crlf[Offset(fd)..], skip);
    } else {
      NoHunkScan(st, fd, crlf, skip);
    }
  }

  // What the scan hands on while it reads the lines of one file, whatever it read before.
  function Handed(fd: FileDiff, crlf: seq<bool>, skip: string -> bool): seq<Request>
    requires |crlf| == |RenderFile(fd)|
  {
    Requests(START, AllPieces(RenderFile(fd), crlf), skip)
  }

  lemma HandedAnywhere(st: State, fd: FileDiff, crlf: seq<bool>, skip: string -> bool)
    requires |crlf| == |RenderFile(fd)|
    ensures Requests(st, AllPieces(RenderFile(fd), crlf), skip) == Handed(fd, crlf, skip)
  {
    hide AllPieces, First, RenderScript, Pair;
    var lines := RenderFile(fd);
    assert lines[0] == "diff --git" + fd.title;
    FirstThenRest(lines, crlf);
    var more := AllPieces(lines, crlf)[1..];
    PrefixBehind("diff --git", fd.title);
    var f := First(PythonBreaks, lines[0]);
    RequestsCons(st, f, more, skip);
    RequestsCons(START, f, more, skip);
    assert Step(st, f, skip) == HEADER == Step(START, f, skip) && Emit(st, f) == [] == Emit(START, f);
  }

  /** One file, with any text in its lines: when the pieces behind breaks are harmless, the scan hands on exactly
      what it should if and only if the names fit and no wanted line is broken. */
  lemma FileExactIff(fd: FileDiff, crlf: seq<bool>, skip: string -> bool)
    requires WellFormed(fd) && Harmless(fd, skip) && |crlf| == |RenderFile(fd)|
    ensures Handed(fd, crlf, skip) == Expected(fd, skip) <==>
            NamesFit(fd, skip) && (Wanted(fd, skip) ==> AddedUnbroken(fd))
  {
    hide RenderScript, RenderFile, AllPieces, Requests, HeaderQuiet;
    hide Label, NeutralBehind, ContainedBehind, Added, ReadPath, Readable;
    if fd.target.Present? { ReadsNameIff(fd); }
    if Wanted(fd, skip) { ScannableIf(fd, skip); }
    if !Scannable(Opened(ReadPath(fd), skip)) {
      UnscannedFile(START, fd, crlf, skip);
      if Wanted(fd, skip) { ForPathSame(fd.target.name.path, fd.target.name.path, Added(fd.script, 0)); }
    } else if Wanted(fd, skip) {
      WantedFileExactIff(fd, crlf, skip);
    } else {
      assert forall l | l in RenderScript(fd.script, 0, 0) :: NeutralBehind(l);
      NeutralFile(START, fd, crlf, skip);
    }
  }

  lemma ScannableIf(fd: FileDiff, skip: string -> bool)
    requires fd.target.Present? && fd.target.name.path != "" && !skip(fd.target.name.path)
    ensures ReadPath(fd) == Some(fd.target.name.path) ==> Scannable(Opened(ReadPath(fd), skip))
  {
  }

  lemma ForPathSame(p: string, q: string, added: seq<(int, string)>)
    requires added != []
    ensures ForPath(p, added) != [] && (ForPath(p, added) == ForPath(q, added) <==> p == q)
  {
    assert ForPath(p, added)[0].path == p && ForPath(q, added)[0].path == q;
  }

  lemma HeadsUnbroken(added: seq<(int, string)>)
    requires forall a | a in added :: Unbroken(PythonBreaks, a.1)
    ensures HeadsOf(added) == added
  {
    forall i | 0 <= i < |added| ensures HeadsOf(added)[i] == added[i] {
      assert added[i] in added;
    }
  }

  lemma WantedFileExactIff(fd: FileDiff, crlf: seq<bool>, skip: string -> bool)
    requires WellFormed(fd) && Harmless(fd, skip) && |crlf| == |RenderFile(fd)|
    requires Wanted(fd, skip) && Scannable(Opened(ReadPath(fd), skip))
    ensures Handed(fd, crlf, skip) == Expected(fd, skip) <==> Readable(fd) && AddedUnbroken(fd)
  {
    hide RenderScript, RenderFile, AllPieces, Requests, HeaderQuiet, Label, Added, ReadPath, Readable, ForPath, HeadsOf;
    var added, path := Added(fd.script, 0), fd.target.name.path;
    ReadsNameIff(fd);
    if AddedUnbroken(fd) {
      forall l | l in RenderScript(fd.script, 0, 0) ensures NeutralBehind(l) {
        if StartsWith(l, "+") { WantedLineIsNeutral(fd, l); }
      }
      NeutralFile(START, fd, crlf, skip);
      HeadsUnbroken(added);
      ForPathSame(ReadPath(fd).value, path, added);
    } else {
      BrokenIsNotExact(fd, crlf, skip);
    }
  }

  lemma WantedLineIsNeutral(fd: FileDiff, l: string)
    requires AddedUnbroken(fd) && l in RenderScript(fd.script, 0, 0) && StartsWith(l, "+")
    ensures NeutralBehind(l)
  {
    hide RenderScript, Added, Behind;
    PlusLineIsAdded(fd.script, 0, 0, l);
    var a :| a in Added(fd.script, 0) && l == "+" + a.1;
    assert Unbroken(PythonBreaks, l);
    UnbrokenBehind(l);
  }

  lemma BrokenIsNotExact(fd: FileDiff, crlf: seq<bool>, skip: string -> bool)
    requires Wanted(fd, skip) && !AddedUnbroken(fd) && |crlf| == |RenderFile(fd)|
    ensures Handed(fd, crlf, skip) != Expected(fd, skip)
  {
    hide RenderFile, AllPieces, Requests, Added;
    var added, path := Added(fd.script, 0), fd.target.name.path;
    PiecesUnbroken(RenderFile(fd), crlf);
    RequestsUnbroken(START, AllPieces(RenderFile(fd), crlf), skip);
    var a :| a in added && !Unbroken(PythonBreaks, a.1);
    var i :| 0 <= i < |added| && added[i] == a;
    assert ForPath(path, added)[i].text == a.1;
    assert ForPath(path, added)[i] in Expected(fd, skip);
  }

  // ---------------------------------------------------------------------------------------------
  // The whole diff.
  // ---------------------------------------------------------------------------------------------

  // What is handed on file by file.
  function HandedAll(fds: seq<FileDiff>, crlf: seq<bool>, skip: string -> bool): seq<Request>
    requires |crlf| == |RenderFiles(fds)|
  {
    if fds == [] then []
    else
      var n := |RenderFile(fds[0])|;
      Handed(fds[0], crlf[..n], skip) + HandedAll(fds[1..], crlf[n..], skip)
  }

  /** Every diff, with any names and any text: the scan of the whole text is the scans of its files in order, so
      no file disturbs another. */
  lemma {:induction false} FilesAreIndependent(st: State, fds: seq<FileDiff>, crlf: seq<bool>, skip: string -> bool)
    requires |crlf| == |RenderFiles(fds)|
    ensures Requests(st, SplitLines(PythonBreaks, Text(RenderFiles(fds), crlf)), skip) == HandedAll(fds, crlf, skip)
    decreases fds
  {
    hide Step, Emit, RenderFile, Handed, Pieces, SplitLines, Text;
    SplitLinesOfText(RenderFiles(fds), crlf);
    if fds != [] {
      var a, b := RenderFile(fds[0]), RenderFiles(fds[1..]);
      AllPiecesConcat(a, b, crlf);
      HandedAnywhere(st, fds[0], crlf[..|a|], skip);
      RequestsConcat(st, AllPieces(a, crlf[..|a|]), AllPieces(b, crlf[|a|..]), skip);
      FilesAreIndependent(After(st, AllPieces(a, crlf[..|a|]), skip), fds[1..], crlf[|a|..], skip);
      SplitLinesOfText(b, crlf[|a|..]);
    }
  }

  lemma {:induction false} AllFilesExact(fds: seq<FileDiff>, crlf: seq<bool>, skip: string -> bool)
    requires |crlf| == |RenderFiles(fds)|
    requires forall fd | fd in fds ::
               && WellFormed(fd) && Harmless(fd, skip) && NamesFit(fd, skip)
               && (Wanted(fd, skip) ==> AddedUnbroken(fd))
    ensures HandedAll(fds, crlf, skip) == ExpectedAll(fds, skip)
  {
    hide RenderFile, Handed, Expected, WellFormed, Harmless, NamesFit, Wanted, AddedUnbroken;
    if fds != [] {
      assert fds[0] in fds;
      var n := |RenderFile(fds[0])|;
      FileExactIff(fds[0], crlf[..n], skip);
      AllFilesExact(fds[1..], crlf[n..], skip);
    }
  }

  lemma {:induction false} WantedIsExpected(fds: seq<FileDiff>, fd: FileDiff, skip: string -> bool)
    requires fd in fds && Wanted(fd, skip) && forall r | r in ExpectedAll(fds, skip) :: Unbroken(PythonBreaks, r.text)
    ensures AddedUnbroken(fd)
  {
    hide Added;
    if fd == fds[0] {
      var added, path := Added(fd.script, 0), fd.target.name.path;
      forall a | a in added ensures Unbroken(PythonBreaks, a.1) {
        var i :| 0 <= i < |added| && added[i] == a;
        assert ForPath(path, added)[i].text == a.1;
        assert ForPath(path, added)[i] in ExpectedAll(fds, skip);
      }
    } else {
      assert forall r | r in ExpectedAll(fds[1..], skip) :: r in ExpectedAll(fds, skip);
      WantedIsExpected(fds[1..], fd, skip);
    }
  }

  /** The whole diff, of any files with any text in their lines: when the pieces behind breaks are harmless and
      the names fit, the scan hands on exactly the added lines of the files that are not skipped, in order,
      under their path and their number in the new file, if and only if none of those lines holds a character
      that Python takes for a line break. The lines may end in \n or \r\n. */
  lemma ScanDiffExactIff(fds: seq<FileDiff>, crlf: seq<bool>, skip: string -> bool)
    requires |crlf| == |RenderFiles(fds)|
    requires forall fd | fd in fds :: WellFormed(fd) && Harmless(fd, skip) && NamesFit(fd, skip)
    ensures Requests(START, SplitLines(PythonBreaks, Text(RenderFiles(fds), crlf)), skip) == ExpectedAll(fds, skip)
            <==> forall r | r in ExpectedAll(fds, skip) :: Unbroken(PythonBreaks, r.text)
  {
    hide RenderFile, Expected, Step, Emit, WellFormed, Harmless, NamesFit, Wanted, AddedUnbroken, HandedAll;
    FilesAreIndependent(START, fds, crlf, skip);
    RequestsUnbroken(START, SplitLines(PythonBreaks, Text(RenderFiles(fds), crlf)), skip);
    if forall r | r in ExpectedAll(fds, skip) :: Unbroken(PythonBreaks, r.text) {
      forall fd | fd in fds && Wanted(fd, skip) ensures AddedUnbroken(fd) {
        WantedIsExpected(fds, fd, skip);
      }
      AllFilesExact(fds, crlf, skip);
    }
  }

  /** The findings of the scan, against the files themselves: under the conditions above they are the scanner's
      findings on the added lines in question, line after line, each called with its path, its number in the
      new file and its text; a scanner that reports what it is handed reports exactly those lines. */
  lemma FindingsAreExact<F>(fds: seq<FileDiff>, crlf: seq<bool>, scanLine: (string, int, string) -> seq<F>,
                            skip: string -> bool)
    returns (cuts: seq<nat>)
    requires |crlf| == |RenderFiles(fds)|
    requires forall fd | fd in fds :: WellFormed(fd) && Harmless(fd, skip) && NamesFit(fd, skip)
    requires forall r | r in ExpectedAll(fds, skip) :: Unbroken(PythonBreaks, r.text)
    ensures var rs := Requests(START, SplitLines(PythonBreaks, Text(RenderFiles(fds), crlf)), skip);
            && InBlocks(Scanned(rs, scanLine), ExpectedAll(fds, skip), scanLine, cuts)
            && Scanned(rs, Echo) == ExpectedAll(fds, skip)
  {
    hide WellFormed, Harmless, NamesFit, RenderFiles, SplitLines, Requests, InBlocks;
    ScanDiffExactIff(fds, crlf, skip);
    cuts := ScannedInBlocks(ExpectedAll(fds, skip), scanLine);
    ScannedEcho(ExpectedAll(fds, skip));
  }

  // ---------------------------------------------------------------------------------------------
  // The condition on stray pieces is exact.
  // ---------------------------------------------------------------------------------------------

  predicate HarmlessText(t: string) {
    forall p | p in Behind(t) :: Neutral(p)
  }

  // The only broken lines of the file are deleted or context lines with text t.
  predicate BrokenOnlyBy(fd: FileDiff, t: string) {
    && Unbroken(PythonBreaks, "diff --git" + fd.title)
    && (forall l | l in fd.extended :: Unbroken(PythonBreaks, l))
    && (forall l | l in Pair(fd) :: Unbroken(PythonBreaks, l))
    && (forall l | l in RenderScript(fd.script, 0, 0) :: Unbroken(PythonBreaks, l) || l == "-" + t || l == " " + t)
  }

  // Deleted and context lines with text t leave the scan of every wanted and readable file exact.
  ghost predicate SparesEveryFile(t: string) {
    forall fd: FileDiff, crlf: seq<bool>, skip: string -> bool
      | WellFormed(fd) && Wanted(fd, skip) && Readable(fd) && BrokenOnlyBy(fd, t) && |crlf| == |RenderFile(fd)| ::
      Handed(fd, crlf, skip) == Expected(fd, skip)
  }

  lemma HarmlessSpares(t: string, fd: FileDiff, crlf: seq<bool>, skip: string -> bool)
    requires HarmlessText(t) && WellFormed(fd) && Wanted(fd, skip) && Readable(fd) && BrokenOnlyBy(fd, t)
    requires |crlf| == |RenderFile(fd)|
    ensures Handed(fd, crlf, skip) == Expected(fd, skip)
  {
    hide RenderScript, Added, Behind, Handed, Expected, Label, Pair;
    UnbrokenBehind("diff --git" + fd.title);
    forall l | l in fd.extended ensures QuietBehind(l) { UnbrokenBehind(l); }
    forall l | l in Pair(fd) ensures QuietBehind(l) { UnbrokenBehind(l); }
    forall l | l in RenderScript(fd.script, 0, 0) ensures NeutralBehind(l) {
      if Unbroken(PythonBreaks, l) {
        UnbrokenBehind(l);
      } else {
        PrefixBehind(l[..1], t);
        assert l == l[..1] + t;
      }
    }
    ReadsNameIff(fd);
    ScannableIf(fd, skip);
    AddedIsPlain(fd, t);
    FileExactIff(fd, crlf, skip);
  }

  lemma AddedIsPlain(fd: FileDiff, t: string)
    requires BrokenOnlyBy(fd, t)
    ensures AddedUnbroken(fd)
  {
    hide RenderScript, Pair;
    forall a | a in Added(fd.script, 0) ensures Unbroken(PythonBreaks, a.1) {
      AddedIsPlusLine(fd.script, 0, 0, a);
      assert ("+" + a.1)[0] == '+';
      assert Unbroken(PythonBreaks, "+" + a.1) && forall c | c in a.1 :: c in "+" + a.1;
    }
  }

  lemma {:induction false} AddedIsPlusLine(script: seq<Segment>, ob: nat, nb: nat, a: (int, string))
    requires a in Added(script, nb)
    ensures "+" + a.1 in RenderScript(script, ob, nb)
    decreases script
  {
    match script[0]
    case Gap(ls) => AddedIsPlusLine(script[1..], ob + |ls|, nb + |ls|, a);
    case Hunk(ls, heading) =>
      if a in AddedInLines(ls, nb) {
        AddedIsLine(ls, nb, a);
      } else {
        AddedIsPlusLine(script[1..], ob + OldCount(ls), nb + NewCount(ls), a);
      }
  }

  lemma {:induction false} AddedIsLine(ls: seq<Line>, before: nat, a: (int, string))
    requires a in AddedInLines(ls, before)
    ensures "+" + a.1 in RenderLines(ls)
  {
    if !(ls[0].Add? && a == (before + 1, ls[0].text)) {
      AddedIsLine(ls[1..], if ls[0].Keep? || ls[0].Add? then before + 1 else before, a);
    }
  }

  // A file of that name in which, behind `gap` lines, a line with text t is replaced by one with text w.
  function Replacing(name: string, gap: nat, t: string, w: string): FileDiff {
    var side := Present(Plain(name, false));
    FileDiff("", [], side, side, [Gap(seq(gap, _ => "")), Hunk([Delete(t), Add(w)], "")])
  }

  lemma ReplacingRenders(name: string, gap: nat, t: string, w: string)
    ensures var fd := Replacing(name, gap, t, w);
            && RenderScript(fd.script, 0, 0) == [HunkHeader(gap, 1, gap, 1, "")] + ["-" + t, "+" + w]
            && Added(fd.script, 0) == [(gap + 1, w)] && HasHunk(fd.script) && |RenderFile(fd)| == 6
  {
    hide HunkHeader, Label;
    var fd := Replacing(name, gap, t, w);
    var ls := [Delete(t), Add(w)];
    assert ls[1..] == [Add(w)] && ls[1..][1..] == [];
    assert RenderLines(ls[1..]) == ["+" + w] && RenderLines(ls) == ["-" + t, "+" + w];
    assert OldCount(ls[1..][1..]) == 0 && NewCount(ls[1..][1..]) == 0;
    assert OldCount(ls[1..]) == 0 && NewCount(ls[1..]) == 1;
    var script := fd.script;
    assert script[1..] == [Hunk(ls, "")] && script[1..][1..] == [];
    assert RenderScript(script[1..], gap, gap) == [HunkHeader(gap, 1, gap, 1, "")] + RenderLines(ls) + [];
    assert AddedInLines(ls[1..][1..], gap + 1) == [] && AddedInLines(ls, gap) == [(gap + 1, w)];
    assert Added(script[1..], gap) == [(gap + 1, w)] + [];
    assert script[1] in script;
  }

  predicate PlainName(name: string) {
    name != "" && (forall c | c in name :: c > ' ') && Unbroken(PythonBreaks, name) && !IsSpace(name[|name| - 1])
  }

  lemma ReplacingIsFit(name: string, gap: nat, t: string, w: string, skip: string -> bool)
    requires PlainName(name) && Unbroken(PythonBreaks, w) && !skip(name)
    ensures var fd := Replacing(name, gap, t, w);
            && WellFormed(fd) && Wanted(fd, skip) && Readable(fd) && BrokenOnlyBy(fd, t)
            && Expected(fd, skip) == [Request(name, gap + 1, w)]
  {
    hide HunkHeader, RenderScript, Added;
    var fd := Replacing(name, gap, t, w);
    ReplacingRenders(name, gap, t, w);
    var h := HunkHeader(gap, 1, gap, 1, "");
    assert Unbroken(PythonBreaks, h) by {
      HeaderFirst(gap, 1, gap, 1, "");
      assert First(PythonBreaks, "") == "";
    }
    assert Unbroken(PythonBreaks, "+" + w);
    assert Label("a/", fd.source) == "a/" + name + "" && Label("b/", fd.target) == "b/" + name + "";
    assert fd.extended == [];
  }

  // The scan of such a file comes down to the pieces behind the breaks of t and the added line.
  lemma ReplacingScan(name: string, gap: nat, t: string, w: string, c: bool, skip: string -> bool)
    requires PlainName(name) && Unbroken(PythonBreaks, w) && !skip(name)
    ensures var fd := Replacing(name, gap, t, w);
            var crlf := [false, false, false, false, c, false];
            && |RenderFile(fd)| == 6
            && Handed(fd, crlf, skip) ==
               Requests(State(Some(name), gap + 1, false, false, false), Tail(PythonBreaks, t, c) + ["+" + w], skip)
  {
    hide HunkHeader, RenderScript, Added, Pieces, Tail, First, Requests;
    hide After, Step, Emit, AllPieces, Label, RenderFile, SplitLines;
    var fd := Replacing(name, gap, t, w);
    var crlf := [false, false, false, false, c, false];
    ReplacingRenders(name, gap, t, w);
    ReplacingIsFit(name, gap, t, w, skip);
    ReadsNameIff(fd);
    HeadersAreQuiet(fd);
    FileHeaderScan(START, fd, crlf, skip);
    var st := Opened(Some(name), skip);
    assert crlf[Offset(fd)..] == [false, c, false];
    ReplacingBody(st, gap, t, w, c, skip);
  }

  lemma ReplacingBody(st: State, gap: nat, t: string, w: string, c: bool, skip: string -> bool)
    requires Unbroken(PythonBreaks, w)
    ensures Requests(st, AllPieces([HunkHeader(gap, 1, gap, 1, "")] + ["-" + t, "+" + w], [false, c, false]), skip) ==
            Requests(Below(st, gap, 1), Tail(PythonBreaks, t, c) + ["+" + w], skip)
  {
    hide HunkHeader, Pieces, Tail, First, Requests, After, Step, Emit, AllPieces, SplitLines;
    var h, f, tail := HunkHeader(gap, 1, gap, 1, ""), First(PythonBreaks, t), Tail(PythonBreaks, t, c);
    HeaderFirst(gap, 1, gap, 1, "");
    assert First(PythonBreaks, "") == "";
    BodyPieces(h, t, w, c);
    StepHunkHeader(st, gap, 1, gap, 1, "", skip);
    StepLine(Below(st, gap, 1), Delete(f), skip);
    RequestsCons(st, h, ["-" + f] + (tail + ["+" + w]), skip);
    RequestsCons(Below(st, gap, 1), "-" + f, tail + ["+" + w], skip);
  }

  lemma BodyPieces(h: string, t: string, w: string, c: bool)
    requires Unbroken(PythonBreaks, w) && First(PythonBreaks, h) == h
    ensures AllPieces([h] + ["-" + t, "+" + w], [false, c, false]) ==
            [h] + (["-" + First(PythonBreaks, t)] + (Tail(PythonBreaks, t, c) + ["+" + w]))
  {
    hide Pieces, Tail, First, AllPieces, SplitLines;
    var minus, plus, tail := "-" + t, "+" + w, Tail(PythonBreaks, t, c);
    PieceOfWhole(h);
    assert Unbroken(PythonBreaks, plus);
    PieceOfWhole(plus);
    PiecesAre(PythonBreaks, minus, c);
    PrefixPieces(PythonBreaks, "-", t, c);
    ThreePieces(h, minus, plus, c);
    var f := ["-" + First(PythonBreaks, t)];
    assert [h] + ((f + tail) + [plus]) == [h] + (f + (tail + [plus]));
  }

  lemma PieceOfWhole(l: string)
    requires First(PythonBreaks, l) == l
    ensures Pieces(PythonBreaks, l, false) == [l]
  {
    PiecesAre(PythonBreaks, l, false);
  }

  lemma ThreePieces(a: string, b: string, d: string, c: bool)
    ensures AllPieces([a] + [b, d], [false, c, false]) ==
            Pieces(PythonBreaks, a, false) + (Pieces(PythonBreaks, b, c) + Pieces(PythonBreaks, d, false))
  {
    hide Pieces;
    var lines, crlf := [a] + [b, d], [false, c, false];
    assert lines[1..] == [b, d] && [b, d][1..] == [d];
    assert crlf[1..] == [c, false] && [c, false][1..] == [false];
    OneLinePieces(d, [false]);
  }

  // Short pieces leave no trace of a long path or a long text.
  predicate Short(ps: seq<string>, n: nat) {
    forall p | p in ps :: |p| < n
  }

  predicate ShortPath(st: State, n: nat) {
    st.path.Some? ==> |st.path.value| < n
  }

  lemma {:induction false} StripLeftShortens(s: string)
    ensures |StripLeft(s)| <= |s|
  {
    if s != "" && IsSpace(s[0]) { StripLeftShortens(s[1..]); }
  }

  lemma ShortPathStep(st: State, p: string, n: nat, skip: string -> bool)
    requires |p| < n && (ShortPath(st, n) || StartsWith(p, "diff --git"))
    ensures ShortPath(Step(st, p, skip), n)
  {
    hide HunkStart;
    if |p| >= 4 {
      StripLeftShortens(p[4..]);
      StripRightShortens(StripLeft(p[4..]));
    }
  }

  lemma {:induction false} ResetForgets(st: State, ps: seq<string>, n: nat, skip: string -> bool)
    requires Short(ps, n) && (ShortPath(st, n) || exists p :: p in ps && StartsWith(p, "diff --git"))
    ensures ShortPath(After(st, ps, skip), n)
    decreases ps
  {
    hide Step;
    if ps != [] {
      assert ps[0] in ps;
      if ShortPath(st, n) || StartsWith(ps[0], "diff --git") { ShortPathStep(st, ps[0], n, skip); }
      ResetForgets(Step(st, ps[0], skip), ps[1..], n, skip);
    }
  }

  lemma {:induction false} RequestsShort(st: State, ps: seq<string>, n: nat, skip: string -> bool)
    requires Short(ps, n)
    ensures forall r | r in Requests(st, ps, skip) :: |r.text| < n
    decreases ps
  {
    hide Step, HunkStart;
    if ps != [] {
      assert ps[0] in ps;
      RequestsShort(Step(st, ps[0], skip), ps[1..], n, skip);
    }
  }

  predicate StartsNoFile(ps: seq<string>) {
    forall p | p in ps :: !StartsWith(p, "diff --git")
  }

  predicate HasHeader(ps: seq<string>) {
    exists p :: p in ps && HunkStart(p).Some?
  }

  // Below a hunk header only the line number moves, and a hunk header forgets it.
  lemma {:induction false} HeaderForgets(st: State, k: int, ps: seq<string>, skip: string -> bool)
    requires !st.inHeader && StartsNoFile(ps)
    ensures After(st, ps, skip) == st.(line := After(st, ps, skip).line)
    ensures HasHeader(ps) ==> After(st, ps, skip).line == After(st.(line := k), ps, skip).line
    decreases ps
  {
    hide HunkStart;
    if ps != [] {
      assert ps[0] in ps;
      var a, b := Step(st, ps[0], skip), Step(st.(line := k), ps[0], skip);
      assert b == a.(line := b.line);
      HeaderForgets(a, b.line, ps[1..], skip);
      if HunkStart(ps[0]).Some? { assert a == b; }
    }
  }

  // Without a hunk header, pieces that hand nothing on and do not move the line number are neutral.
  lemma {:induction false} UnmovedIsNeutral(st: State, ps: seq<string>, skip: string -> bool)
    requires !st.inHeader && Scannable(st) && StartsNoFile(ps) && !HasHeader(ps) && Requests(st, ps, skip) == []
    ensures After(st, ps, skip).line >= st.line
    ensures After(st, ps, skip).line == st.line ==> forall p | p in ps :: Neutral(p)
    decreases ps
  {
    hide HunkStart;
    if ps != [] {
      var p := ps[0];
      assert p in ps && HunkStart(p).None? && !StartsWith(p, "diff --git");
      assert Emit(st, p) == [];
      UnmovedIsNeutral(Step(st, p, skip), ps[1..], skip);
      assert ps == [p] + ps[1..];
    }
  }

  lemma FirstOfBoth(a: seq<Request>, b: seq<Request>)
    ensures a != [] ==> (a + b)[0] == a[0] && a[0] in a
  {
  }

  // If the added line w comes through under its long name at its true number, the pieces have handed nothing
  // on, have not started a file and have left the line number where it was.
  lemma ComesThrough(st: State, ps: seq<string>, w: string, skip: string -> bool)
    requires !st.inHeader && Scannable(st) && Short(ps, |w|) && st.path == Some(w)
    requires Requests(st, ps + ["+" + w], skip) == [Request(w, st.line, w)]
    ensures Requests(st, ps, skip) == [] && StartsNoFile(ps) && After(st, ps, skip).line == st.line
  {
    hide Step;
    RequestsConcat(st, ps, ["+" + w], skip);
    RequestsShort(st, ps, |w|, skip);
    var end := After(st, ps, skip);
    var r, e := Requests(st, ps, skip), Requests(end, ["+" + w], skip);
    assert e == Emit(end, "+" + w) by {
      assert ["+" + w] == ["+" + w] + [];
      RequestsCons(end, "+" + w, [], skip);
      assert Emit(end, "+" + w) + [] == Emit(end, "+" + w);
    }
    FirstOfBoth(r, e);
    assert r + e == [Request(w, st.line, w)];
    assert r == [];
    assert e == [Request(w, st.line, w)];
    assert end.path == Some(w) && end.line == st.line;
    assert StartsNoFile(ps) by {
      if p :| p in ps && StartsWith(p, "diff --git") { ResetForgets(st, ps, |w|, skip); }
    }
  }

  function Filler(n: nat): (s: string)
    ensures |s| == n && forall c | c in s :: c == 'f'
  {
    if n == 0 then "" else "f" + Filler(n - 1)
  }

  lemma {:induction false} PiecesShort(b: Breaks, s: string)
    ensures forall p | p in SplitLines(b, s) :: |p| <= |s|
    decreases |s|
  {
    hide LineLength;
    if s != "" {
      var n := LineLength(b, s);
      if n < |s| { PiecesShort(b, AfterBreak(s[n..])); }
    }
  }

  lemma TailShort(t: string, c: bool)
    ensures Short(Tail(PythonBreaks, t, c), |t| + 2)
  {
    hide SplitLines, Pieces, Tail;
    PiecesAre(PythonBreaks, t, c);
    PiecesShort(PythonBreaks, AfterBreak(Rest(PythonBreaks, t) + Eol(c)));
  }

  lemma FillerIsPlain(n: nat)
    requires n > 0
    ensures PlainName(Filler(n)) && Unbroken(PythonBreaks, Filler(n))
  {
    var w := Filler(n);
    assert w[|w| - 1] in w;
  }

  lemma SparedPasses(t: string, c: bool, gap: nat, w: string, skip: string -> bool)
    requires SparesEveryFile(t) && PlainName(w) && Unbroken(PythonBreaks, w) && !skip(w)
    ensures Requests(State(Some(w), gap + 1, false, false, false), Tail(PythonBreaks, t, c) + ["+" + w], skip) ==
            [Request(w, gap + 1, w)]
  {
    hide Tail, Requests, Replacing, Handed, RenderFile;
    hide Wanted, Expected, Readable, BrokenOnlyBy, WellFormed, SplitLines;
    ReplacingScan(w, gap, t, w, c, skip);
    ReplacingIsFit(w, gap, t, w, skip);
  }

  lemma SpoiltUnlessNeutral(t: string, c: bool)
    requires SparesEveryFile(t)
    ensures forall p | p in Tail(PythonBreaks, t, c) :: Neutral(p)
  {
    hide SparesEveryFile, Tail, Requests, After, Neutral, PlainName, HasHeader, SplitLines;
    var w, ps := Filler(|t| + 2), Tail(PythonBreaks, t, c);
    var never := (p: string) => false;
    TailShort(t, c);
    FillerIsPlain(|t| + 2);
    var one, two := State(Some(w), 1, false, false, false), State(Some(w), 2, false, false, false);
    SparedPasses(t, c, 0, w, never);
    SparedPasses(t, c, 1, w, never);
    ComesThrough(one, ps, w, never);
    ComesThrough(two, ps, w, never);
    HeaderForgets(one, 2, ps, never);
    UnmovedIsNeutral(one, ps, never);
  }

  /** Exactly which texts are harmless in a deleted or context line of a file that is scanned: those with no
      piece behind a break that starts with `+`, a space or `diff --git` or is a hunk header. */
  lemma HarmlessTextIff(t: string)
    ensures SparesEveryFile(t) <==> HarmlessText(t)
  {
    hide Tail, Neutral, Handed, Wanted, Expected, Readable, BrokenOnlyBy, WellFormed, RenderFile, SplitLines;
    if SparesEveryFile(t) {
      SpoiltUnlessNeutral(t, false);
      SpoiltUnlessNeutral(t, true);
    }
    if HarmlessText(t) {
      forall fd: FileDiff, crlf: seq<bool>, skip: string -> bool
        | WellFormed(fd) && Wanted(fd, skip) && Readable(fd) && BrokenOnlyBy(fd, t) && |crlf| == |RenderFile(fd)|
        ensures Handed(fd, crlf, skip) == Expected(fd, skip)
      {
        HarmlessSpares(t, fd, crlf, skip);
      }
    }
  }

  /** A deleted line with a form feed in it can hide an added line: names are readable and the added line is
      unbroken, yet it is dropped unscanned. */
  lemma DeletedLineHidesToken(skip: string -> bool)
    requires !skip("f")
    ensures var fd := Replacing("f", 0, "a\U{C}diff --git", "token");
            && WellFormed(fd) && Readable(fd) && |RenderFile(fd)| == 6
            && Handed(fd, [false, false, false, false, false, false], skip) == []
            && Expected(fd, skip) == [Request("f", 1, "token")]
  {
    hide Replacing, Handed, Readable, WellFormed, RenderFile;
    hide BrokenOnlyBy, Wanted, Expected, Tail, Requests, SplitLines;
    var t := "a\U{C}diff --git";
    ReplacingIsFit("f", 0, t, "token", skip);
    ReplacingScan("f", 0, t, "token", false, skip);
    HiddenTail();
    var st := State(Some("f"), 1, false, false, false);
    assert Requests(st, ["diff --git"] + ["+token"], skip) == [] by { ResetSwallows(st, skip); }
    assert "+" + "token" == "+token";
  }

  lemma HiddenTail()
    ensures Tail(PythonBreaks, "a\U{C}diff --git", false) == ["diff --git"]
  {
    hide Tail, SplitLines;
    assert "a\U{C}diff --git" == "a" + (['\U{C}'] + "diff --git");
    TailOfOneBreak("a", '\U{C}', "diff --git");
  }

  lemma TailOfOneBreak(a: string, x: char, b: string)
    requires Unbroken(PythonBreaks, a) && IsBreak(PythonBreaks, x) && x != '\r' && Unbroken(PythonBreaks, b)
    ensures Tail(PythonBreaks, a + ([x] + b), false) == [b]
  {
    hide SplitLines, First;
    SplitUnfolds(PythonBreaks, a, [x] + (b + "\n"));
    assert a + ([x] + b) + "\n" == a + ([x] + (b + "\n"));
    assert AfterBreak([x] + (b + "\n")) == b + "\n";
    SplitUnfolds(PythonBreaks, b, "\n");
    SplitNothing(PythonBreaks);
  }

  lemma ResetSwallows(st: State, skip: string -> bool)
    requires !st.inHeader
    ensures Requests(st, ["diff --git"] + ["+token"], skip) == []
  {
    RequestsCons(st, "diff --git", ["+token"], skip);
    assert Step(st, "diff --git", skip) == HEADER;
    assert ["+token"] == ["+token"] + [];
    RequestsCons(HEADER, "+token", [], skip);
  }

  // ---------------------------------------------------------------------------------------------
  // The condition on files that are not scanned is exact.
  // ---------------------------------------------------------------------------------------------

  predicate ContainedText(t: string, skip: string -> bool) {
    Contained(Tail(PythonBreaks, t, false), skip) && Contained(Tail(PythonBreaks, t, true), skip)
  }

  // The only broken lines of the file are lines of its hunks with text t.
  predicate BrokenOnlyInHunksBy(fd: FileDiff, t: string) {
    && Unbroken(PythonBreaks, "diff --git" + fd.title)
    && (forall l | l in fd.extended :: Unbroken(PythonBreaks, l))
    && (forall l | l in Pair(fd) :: Unbroken(PythonBreaks, l))
    && (forall l | l in RenderScript(fd.script, 0, 0) ::
          Unbroken(PythonBreaks, l) || l == "-" + t || l == " " + t || l == "+" + t)
  }

  // Lines with text t make no file hand anything on that is not scanned.
  ghost predicate SparesUnscanned(t: string, skip: string -> bool) {
    forall fd: FileDiff, crlf: seq<bool>
      | && WellFormed(fd) && !Scannable(Opened(ReadPath(fd), skip)) && BrokenOnlyInHunksBy(fd, t)
        && |crlf| == |RenderFile(fd)| ::
      Handed(fd, crlf, skip) == []
  }

  lemma HeadersAreQuiet(fd: FileDiff)
    requires Unbroken(PythonBreaks, "diff --git" + fd.title)
    requires forall l | l in fd.extended :: Unbroken(PythonBreaks, l)
    requires forall l | l in Pair(fd) :: Unbroken(PythonBreaks, l)
    ensures HeaderQuiet(fd)
  {
    hide Behind, Pair;
    UnbrokenBehind("diff --git" + fd.title);
    forall l | l in fd.extended ensures QuietBehind(l) { UnbrokenBehind(l); }
    forall l | l in Pair(fd) ensures QuietBehind(l) { UnbrokenBehind(l); }
  }

  lemma ContainedLine(l: string, t: string, skip: string -> bool)
    requires ContainedText(t, skip)
    requires Unbroken(PythonBreaks, l) || l == "-" + t || l == " " + t || l == "+" + t
    ensures ContainedBehind(l, skip)
  {
    hide Tail, Requests, After, SplitLines;
    if Unbroken(PythonBreaks, l) {
      PiecesAre(PythonBreaks, l, false);
      PiecesAre(PythonBreaks, l, true);
      NothingIsContained(skip);
    } else {
      assert l == l[..1] + t;
      PrefixPieces(PythonBreaks, l[..1], t, false);
      PrefixPieces(PythonBreaks, l[..1], t, true);
    }
  }

  lemma NothingIsContained(skip: string -> bool)
    ensures Contained([], skip)
  {
  }

  lemma ContainedSpares(t: string, fd: FileDiff, crlf: seq<bool>, skip: string -> bool)
    requires ContainedText(t, skip) && WellFormed(fd) && !Scannable(Opened(ReadPath(fd), skip))
    requires BrokenOnlyInHunksBy(fd, t) && |crlf| == |RenderFile(fd)|
    ensures Handed(fd, crlf, skip) == []
  {
    hide RenderScript, RenderFile, Pair, ContainedText, ContainedBehind, ReadPath;
    HeadersAreQuiet(fd);
    forall l | l in RenderScript(fd.script, 0, 0) ensures ContainedBehind(l, skip) { ContainedLine(l, t, skip); }
    UnscannedFile(START, fd, crlf, skip);
  }

  // A file that is not scanned, since its old name is quoted: a line with text t is deleted, then come a deleted
  // and an added line that look like a pair naming g, and a hunk with an added line.
  function Planting(g: string, t: string): FileDiff {
    FileDiff("", [], Present(Quoted("q", "q")), Present(Plain(g, false)),
             [Hunk([Delete(t), Delete("-- a/" + g), Add("++ b/" + g)], ""), Gap([""]), Hunk([Add("w")], "")])
  }

  const FIRST_HEADER := HunkHeader(0, 2, 0, 1, "")
  const SECOND_HEADER := HunkHeader(3, 0, 2, 1, "")

  function PlantedLines(g: string): seq<string> {
    ["--- a/" + g] + (["+++ b/" + g] + ([SECOND_HEADER] + ["+w"]))
  }

  lemma PlantingRenders(g: string, t: string)
    ensures var fd := Planting(g, t);
            && RenderScript(fd.script, 0, 0) == [FIRST_HEADER] + (["-" + t] + PlantedLines(g))
            && HasHunk(fd.script) && |RenderFile(fd)| == 9
  {
    hide HunkHeader, Label;
    var script := Planting(g, t).script;
    var a, b := script[0].lines, script[2].lines;
    assert script[1..][1..] == [script[2]] && script[1..][1..][1..] == [];
    assert "-" + ("-- a/" + g) == "--- a/" + g && "+" + ("++ b/" + g) == "+++ b/" + g && "+" + "w" == "+w";
    assert a[1..] == [a[1], a[2]] && a[1..][1..] == [a[2]] && a[1..][1..][1..] == [] && b[1..] == [];
    assert RenderLines(a[1..][1..]) == ["+++ b/" + g] && RenderLines(a[1..]) == ["--- a/" + g, "+++ b/" + g];
    assert RenderLines(a) == ["-" + t, "--- a/" + g, "+++ b/" + g] && RenderLines(b) == ["+w"];
    assert OldCount(a[1..][1..]) == 0 && NewCount(a[1..][1..]) == 1;
    assert OldCount(a[1..]) == 1 && NewCount(a[1..]) == 1;
    assert OldCount(a) == 2 && NewCount(a) == 1 && OldCount(b) == 0 && NewCount(b) == 1;
    assert RenderScript(script[1..][1..], 3, 2) == [SECOND_HEADER] + RenderLines(b) + [];
    assert RenderScript(script[1..], 2, 1) == RenderScript(script[1..][1..], 3, 2);
    assert RenderScript(script, 0, 0) == [FIRST_HEADER] + RenderLines(a) + RenderScript(script[1..], 2, 1);
    assert script[0] in script;
  }

  lemma HeaderUnbroken(ob: nat, oc: nat, nb: nat, nc: nat)
    ensures Unbroken(PythonBreaks, HunkHeader(ob, oc, nb, nc, ""))
  {
    hide HunkHeader, First;
    HeaderFirst(ob, oc, nb, nc, "");
    assert First(PythonBreaks, "") == "";
  }

  lemma PlantingIsFit(g: string, t: string, skip: string -> bool)
    requires PlainName(g)
    ensures var fd := Planting(g, t);
            && WellFormed(fd) && ReadPath(fd) == None && BrokenOnlyInHunksBy(fd, t) && HeaderQuiet(fd)
  {
    hide HunkHeader, RenderScript, Added;
    var fd := Planting(g, t);
    PlantingRenders(g, t);
    HeaderUnbroken(0, 2, 0, 1);
    HeaderUnbroken(3, 0, 2, 1);
    assert Label("b/", fd.target) == "b/" + g + "";
    assert forall l | l in PlantedLines(g) :: Unbroken(PythonBreaks, l);
    assert forall l | l in Pair(fd) :: Unbroken(PythonBreaks, l);
    HeadersAreQuiet(fd);
  }

  // The scan of such a file comes down to the pieces behind the breaks of t and the planted lines.
  lemma PlantingScan(g: string, t: string, c: bool, skip: string -> bool)
    requires PlainName(g)
    ensures var fd := Planting(g, t);
            var crlf := [false, false, false, false, c, false, false, false, false];
            && |RenderFile(fd)| == 9
            && exists st :: Dead(st)
                 && Handed(fd, crlf, skip) == Requests(st, Tail(PythonBreaks, t, c) + PlantedLines(g), skip)
  {
    hide HunkHeader, RenderScript, Added, Pieces, Tail, First, Requests, After, Step, Emit;
    hide AllPieces, Label, RenderFile, SplitLines, PlantedLines, HeaderQuiet, ReadPath;
    var fd := Planting(g, t);
    var crlf := [false, false, false, false, c, false, false, false, false];
    PlantingRenders(g, t);
    PlantingIsFit(g, t, skip);
    FileHeaderScan(START, fd, crlf, skip);
    var st := Opened(None, skip);
    var rest := crlf[Offset(fd)..];
    assert rest == [false, c, false, false, false, false];
    PlantingBody(st, g, t, c, skip);
    assert Dead(Below(st, 0, 1));
  }

  lemma PlantingBody(st: State, g: string, t: string, c: bool, skip: string -> bool)
    requires PlainName(g)
    ensures |PlantedLines(g)| == 4
    ensures Requests(st, AllPieces([FIRST_HEADER] + (["-" + t] + PlantedLines(g)),
                                   [false, c, false, false, false, false]), skip)
            == Requests(Below(st, 0, 1), Tail(PythonBreaks, t, c) + PlantedLines(g), skip)
  {
    hide HunkHeader, Pieces, Tail, First, Requests, After, Step, Emit, AllPieces, SplitLines;
    var crlf := [false, c, false, false, false, false];
    var f, tail, st1 := First(PythonBreaks, t), Tail(PythonBreaks, t, c), Below(st, 0, 1);
    HeaderUnbroken(0, 2, 0, 1);
    PieceOfWhole(FIRST_HEADER);
    OneLineRequests(st, FIRST_HEADER, skip);
    StepHunkHeader(st, 0, 2, 0, 1, "", skip);
    PiecesCons(st, FIRST_HEADER, ["-" + t] + PlantedLines(g), crlf, skip);
    assert crlf[1..] == [c, false, false, false, false] && crlf[1..][1..] == [false, false, false, false];
    PlantedPieces(g);
    MinusPieces(t, c, PlantedLines(g));
    StepLine(st1, Delete(f), skip);
    RequestsCons(st1, "-" + f, tail + PlantedLines(g), skip);
  }

  lemma OneLineRequests(st: State, l: string, skip: string -> bool)
    ensures Requests(st, [l], skip) == Emit(st, l) && After(st, [l], skip) == Step(st, l, skip)
  {
    assert [l] == [l] + [];
    RequestsCons(st, l, [], skip);
    assert Emit(st, l) + [] == Emit(st, l);
  }

  lemma MinusPieces(t: string, c: bool, more: seq<string>)
    requires |more| == 4 && AllPieces(more, [false, false, false, false]) == more
    ensures AllPieces(["-" + t] + more, [c, false, false, false, false]) ==
            ["-" + First(PythonBreaks, t)] + (Tail(PythonBreaks, t, c) + more)
  {
    hide Pieces, Tail, First, SplitLines, AllPieces;
    PiecesAre(PythonBreaks, "-" + t, c);
    PrefixPieces(PythonBreaks, "-", t, c);
    ConsPieces("-" + t, more, [c, false, false, false, false]);
    assert [c, false, false, false, false][1..] == [false, false, false, false];
    Regroup(["-" + First(PythonBreaks, t)], Tail(PythonBreaks, t, c), more);
  }

  lemma ConsPieces(l: string, more: seq<string>, crlf: seq<bool>)
    requires |crlf| == 1 + |more|
    ensures AllPieces([l] + more, crlf) == Pieces(PythonBreaks, l, crlf[0]) + AllPieces(more, crlf[1..])
  {
    hide Pieces;
    assert ([l] + more)[1..] == more;
  }

  lemma Regroup(a: seq<string>, b: seq<string>, c: seq<string>)
    ensures (a + b) + c == a + (b + c)
  {
  }

  lemma {:induction false} UnbrokenPieces(lines: seq<string>, crlf: seq<bool>)
    requires |lines| == |crlf| && forall i | 0 <= i < |lines| :: Unbroken(PythonBreaks, lines[i]) && !crlf[i]
    ensures AllPieces(lines, crlf) == lines
  {
    hide Pieces, First;
    if lines != [] {
      PieceOfWhole(lines[0]);
      UnbrokenPieces(lines[1..], crlf[1..]);
    }
  }

  lemma PlantedPieces(g: string)
    requires PlainName(g)
    ensures |PlantedLines(g)| == 4 && AllPieces(PlantedLines(g), [false, false, false, false]) == PlantedLines(g)
  {
    hide HunkHeader, AllPieces;
    HeaderUnbroken(3, 0, 2, 1);
    var lines := PlantedLines(g);
    assert forall i | 0 <= i < 4 :: Unbroken(PythonBreaks, lines[i]);
    UnbrokenPieces(lines, [false, false, false, false]);
  }

  // The planted lines come out of every state that is not dead.
  lemma PlantedComesOut(st: State, g: string, skip: string -> bool)
    requires PlainName(g) && !skip(g) && !Dead(st)
    ensures Requests(st, PlantedLines(g), skip) != []
  {
    hide HunkHeader, Step, Emit, Requests;
    var minus, plus := "--- a/" + g, "+++ b/" + g;
    var more := [SECOND_HEADER] + ["+w"];
    RequestsCons(st, minus, [plus] + more, skip);
    var st1 := Step(st, minus, skip);
    RequestsCons(st1, plus, more, skip);
    var st2 := Step(st1, plus, skip);
    if st.inHeader {
      PlantedPair(st, g, skip);
      RequestsCons(st2, SECOND_HEADER, ["+w"], skip);
      StepHunkHeader(st2, 3, 0, 2, 1, "", skip);
      var st3 := Step(st2, SECOND_HEADER, skip);
      OneLineRequests(st3, "+w", skip);
      StepLine(st3, Add("w"), skip);
      assert "+" + "w" == "+w";
    } else {
      assert "-" + ("-- a/" + g) == minus && "+" + ("++ b/" + g) == plus;
      StepLine(st, Delete("-- a/" + g), skip);
      StepLine(st1, Add("++ b/" + g), skip);
    }
  }

  lemma PlantedPair(st: State, g: string, skip: string -> bool)
    requires st.inHeader && PlainName(g)
    ensures var st1 := Step(st, "--- a/" + g, skip);
            var st2 := Step(st1, "+++ b/" + g, skip);
            && Emit(st, "--- a/" + g) == [] && Emit(st1, "+++ b/" + g) == []
            && st2.inHeader && st2.path == Some(g) && st2.skipping == skip(g)
  {
    hide ParseRange, StripRight, StripLeft;
    var minus, plus := "--- a/" + g, "+++ b/" + g;
    assert minus[4..] == "a/" + g && plus[4..] == "b/" + g && minus[0] == '-' && plus[0] == '+';
    StripPlain("a/", g);
    StripPlain("b/", g);
    StripRightKeeps(g);
    assert ("b/" + g)[0] == 'b' && ("b/" + g)[2..] == g;
  }

  lemma SparedIsContained(t: string, c: bool, g: string, skip: string -> bool)
    requires SparesUnscanned(t, skip) && PlainName(g) && !skip(g)
    ensures Contained(Tail(PythonBreaks, t, c), skip)
  {
    hide Tail, Requests, After, Dead, Planting, Handed, RenderFile, WellFormed, ReadPath, BrokenOnlyInHunksBy;
    hide PlantedLines;
    var crlf := [false, false, false, false, c, false, false, false, false];
    var tail := Tail(PythonBreaks, t, c);
    PlantingScan(g, t, c, skip);
    PlantingIsFit(g, t, skip);
    NoPathIsUnscanned(skip);
    var st :| Dead(st) && Handed(Planting(g, t), crlf, skip) == Requests(st, tail + PlantedLines(g), skip);
    RequestsConcat(st, tail, PlantedLines(g), skip);
    var end := After(st, tail, skip);
    if !Dead(end) { PlantedComesOut(end, g, skip); }
    StartIsDead();
    DeadAgree(st, START, tail, skip);
  }

  lemma NoPathIsUnscanned(skip: string -> bool)
    ensures !Scannable(Opened(None, skip))
  {
  }

  /** Exactly which texts are harmless in the lines of files that are not scanned, as soon as some name g is
      scanned: those whose pieces behind breaks hand nothing on by themselves and leave the scan neither in a
      header nor on a path that is scanned. */
  lemma UnscannedTextIff(t: string, g: string, skip: string -> bool)
    requires PlainName(g) && !skip(g)
    ensures SparesUnscanned(t, skip) <==> ContainedText(t, skip)
  {
    hide Tail, Contained, Handed, ReadPath, BrokenOnlyInHunksBy, WellFormed, RenderFile, PlainName;
    if SparesUnscanned(t, skip) {
      SparedIsContained(t, false, g, skip);
      SparedIsContained(t, true, g, skip);
    }
    if ContainedText(t, skip) {
      forall fd: FileDiff, crlf: seq<bool>
        | && WellFormed(fd) && !Scannable(Opened(ReadPath(fd), skip)) && BrokenOnlyInHunksBy(fd, t)
          && |crlf| == |RenderFile(fd)|
        ensures Handed(fd, crlf, skip) == []
      {
        ContainedSpares(t, fd, crlf, skip);
      }
    }
  }

  // A hunk header whose numbers are single digits of any script.
  function ShortHeader(d: char, e: char): string {
    "@@ -" + ([d] + (" +" + ([e] + " @@")))
  }

  lemma ShortHeaderStart(d: char, e: char)
    requires IsDecimal(d) && IsDecimal(e)
    ensures HunkStart(ShortHeader(d, e)) == Some(DigitValue(e))
    ensures ShortHeader(d, e)[0] == '@'
  {
    hide ParseRange, IsDecimal, DigitValue;
    var raw := ShortHeader(d, e);
    assert raw[4..] == [d] + (" +" + ([e] + " @@"));
    OneDigitRange(d, " +" + ([e] + " @@"));
    assert (" +" + ([e] + " @@"))[2..] == [e] + " @@";
    OneDigitRange(e, " @@");
  }

  lemma OneDigitRange(d: char, rest: string)
    requires IsDecimal(d) && rest != "" && rest[0] == ' '
    ensures ParseRange([d] + rest) == Some((DigitValue(d), rest))
  {
    hide IsDecimal, DigitValue;
    var s := [d] + rest;
    AsciiDigits(' ');
    assert s[1..] == rest && DigitRun(rest) == 0 && DigitRun(s) == 1;
    assert s[..1] == [d] && [d][..0] == "";
    assert Number(s[..1]) == DigitValue(d);
  }

  /** A deleted line with a form feed and a hunk header in it, in digits of any script, gives the added line behind
      it the number in that header. */
  lemma DeletedLineMovesNumber(d: char, e: char, skip: string -> bool)
    requires IsDecimal(d) && IsDecimal(e) && !skip("f")
    ensures var t := "a" + (['\U{C}'] + ShortHeader(d, e));
            var fd := Replacing("f", 0, t, "token");
            && WellFormed(fd) && Readable(fd) && |RenderFile(fd)| == 6
            && Handed(fd, [false, false, false, false, false, false], skip) == [Request("f", DigitValue(e), "token")]
            && Expected(fd, skip) == [Request("f", 1, "token")]
  {
    hide Replacing, Handed, Readable, WellFormed, RenderFile, BrokenOnlyBy, Wanted, Expected, Tail, Requests;
    hide ShortHeader, IsDecimal, DigitValue;
    var h := ShortHeader(d, e);
    var t := "a" + (['\U{C}'] + h);
    ReplacingIsFit("f", 0, t, "token", skip);
    ReplacingScan("f", 0, t, "token", false, skip);
    ShortHeaderUnbroken(d, e);
    TailOfOneBreak("a", '\U{C}', h);
    HeaderThenAdded(State(Some("f"), 1, false, false, false), h, DigitValue(e), skip, d, e);
  }

  lemma ShortHeaderUnbroken(d: char, e: char)
    requires IsDecimal(d) && IsDecimal(e)
    ensures Unbroken(PythonBreaks, ShortHeader(d, e))
  {
    forall c | c in ShortHeader(d, e) ensures !IsBreak(PythonBreaks, c) {
      assert c in "@@ -" || c == d || c in " +" || c == e || c in " @@";
    }
  }

  lemma HeaderThenAdded(st: State, h: string, n: nat, skip: string -> bool, d: char, e: char)
    requires !st.inHeader && Scannable(st) && IsDecimal(d) && IsDecimal(e)
    requires h == ShortHeader(d, e) && n == DigitValue(e)
    ensures Requests(st, [h] + ["+" + "token"], skip) == [Request(st.path.value, n, "token")]
  {
    hide HunkStart, IsDecimal, DigitValue, ShortHeader;
    ShortHeaderStart(d, e);
    RequestsCons(st, h, ["+" + "token"], skip);
    var st1 := Step(st, h, skip);
    assert st1 == st.(line := n) && Emit(st, h) == [];
    assert ["+" + "token"] == ["+" + "token"] + [];
    RequestsCons(st1, "+" + "token", [], skip);
    StepLine(st1, Add("token"), skip);
  }

  /** Arabic-Indic digits are such digits: the line above reports the added line at 7. */
  lemma ArabicIndicSeven()
    ensures IsDecimal('\U{661}') && IsDecimal('\U{667}') && DigitValue('\U{667}') == 7
  {
  }

  /** A file whose old name git shows quoted is not scanned at all, whatever it adds. */
  lemma QuotedNameIsMissed(fd: FileDiff, crlf: seq<bool>, skip: string -> bool)
    requires WellFormed(fd) && HeaderQuiet(fd) && |crlf| == |RenderFile(fd)|
    requires fd.source.Present? && fd.source.name.Quoted?
    requires forall l | l in RenderScript(fd.script, 0, 0) :: ContainedBehind(l, skip)
    ensures Handed(fd, crlf, skip) == []
    ensures Wanted(fd, skip) ==> Expected(fd, skip) != []
  {
    hide RenderScript, RenderFile, Added;
    UnscannedFile(START, fd, crlf, skip);
  }
}
