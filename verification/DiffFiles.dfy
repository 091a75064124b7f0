/**
 The scan of rendered diffs, line by line and file by file. The text is cut by `str.splitlines`, which also
 breaks lines inside their text; the pieces behind such a break reach the loop as lines of their own.
 */
module DiffFiles {
  import opened Decimals
  import opened PythonDigits
  import opened Options
  import opened TextLines
  import opened DiffScan
  import opened GitDiff

  // ---------------------------------------------------------------------------------------------
  // The scan of a rendered hunk, script and file.
  // ---------------------------------------------------------------------------------------------

  lemma {:induction false} DigitRunIs(ds: string, rest: string)
    requires (forall c | c in ds :: IsDigit(c)) && (rest != "" ==> rest[0] < '0')
    ensures DigitRun(ds + rest) == |ds|
  {
    hide IsDecimal;
    if ds == "" {
      assert ds + rest == rest;
      if rest != "" { AsciiDigits(rest[0]); }
    } else {
      AsciiDigits(ds[0]);
      assert (ds + rest)[1..] == ds[1..] + rest;
      DigitRunIs(ds[1..], rest);
    }
  }

  lemma ParseRangeIs(before: nat, count: nat, rest: string)
    requires rest != "" && rest[0] == ' '
    ensures ParseRange(RangeText(before, count) + rest) == Some((if count == 0 then before else before + 1, rest))
  {
    var n := if count == 0 then before else before + 1;
    var tail := if count == 1 then "" else "," + Decimal(count);
    var s := RangeText(before, count) + rest;
    assert s == Decimal(n) + (tail + rest);
    DigitRunIs(Decimal(n), tail + rest);
    DecimalValue(n);
    AsciiNumber(Decimal(n));
    assert s[..|Decimal(n)|] == Decimal(n) && s[|Decimal(n)|..] == tail + rest;
    if count == 1 {
      assert tail + rest == rest;
    } else {
      assert (tail + rest)[1..] == Decimal(count) + rest;
      DigitRunIs(Decimal(count), rest);
      assert (Decimal(count) + rest)[|Decimal(count)|..] == rest;
    }
  }

  lemma HunkStartIs(ob: nat, oc: nat, nb: nat, nc: nat, heading: string)
    ensures HunkStart(HunkHeader(ob, oc, nb, nc, heading)) == Some(if nc == 0 then nb else nb + 1)
  {
    hide ParseRange, RangeText;
    var end := " @@" + heading;
    var mid := " +" + (RangeText(nb, nc) + end);
    var raw := HunkHeader(ob, oc, nb, nc, heading);
    assert raw[4..] == RangeText(ob, oc) + mid;
    ParseRangeIs(ob, oc, mid);
    assert mid[2..] == RangeText(nb, nc) + end;
    ParseRangeIs(nb, nc, end);
  }

  lemma StepHunkHeader(st: State, ob: nat, oc: nat, nb: nat, nc: nat, heading: string, skip: string -> bool)
    ensures var raw := HunkHeader(ob, oc, nb, nc, heading);
            var line := if nc == 0 then nb else nb + 1;
            && Step(st, raw, skip) == st.(inHeader := false, line := line,
                                          awaitingPlus := if st.inHeader then false else st.awaitingPlus)
            && Emit(st, raw) == []
  {
    hide HunkStart, Strip;
    HunkStartIs(ob, oc, nb, nc, heading);
    var raw := HunkHeader(ob, oc, nb, nc, heading);
    assert raw[0] == '@';
  }

  lemma StepLine(st: State, l: Line, skip: string -> bool)
    requires !st.inHeader
    ensures Step(st, RenderLine(l), skip) == if l.Keep? || l.Add? then st.(line := st.line + 1) else st
    ensures Emit(st, RenderLine(l)) == if l.Add? && Scannable(st) then [Request(st.path.value, st.line, l.text)] else []
  {
    var raw := RenderLine(l);
    assert raw[0] in "+- \\";
    if l.Add? { assert raw[1..] == l.text; }
  }

  lemma RequestsCons(st: State, raw: string, lines: seq<string>, skip: string -> bool)
    ensures Requests(st, [raw] + lines, skip) == Emit(st, raw) + Requests(Step(st, raw, skip), lines, skip)
    ensures After(st, [raw] + lines, skip) == After(Step(st, raw, skip), lines, skip)
  {
    assert ([raw] + lines)[1..] == lines;
  }

  lemma {:induction false} RequestsConcat(st: State, a: seq<string>, b: seq<string>, skip: string -> bool)
    ensures Requests(st, a + b, skip) == Requests(st, a, skip) + Requests(After(st, a, skip), b, skip)
    ensures After(st, a + b, skip) == After(After(st, a, skip), b, skip)
    decreases a
  {
    hide Step, Emit;
    if a == [] {
      assert a + b == b;
    } else {
      RequestsConcat(Step(st, a[0], skip), a[1..], b, skip);
      assert a + b == [a[0]] + (a[1..] + b);
      RequestsCons(st, a[0], a[1..] + b, skip);
    }
  }

  lemma ForPathConcat(path: string, a: seq<(int, string)>, b: seq<(int, string)>)
    ensures ForPath(path, a + b) == ForPath(path, a) + ForPath(path, b)
  {
  }

  // What a state with a path in it yields for added lines.
  function Yield(st: State, added: seq<(int, string)>): seq<Request> {
    if Scannable(st) then ForPath(st.path.value, added) else []
  }


  // ---------------------------------------------------------------------------------------------
  // Lines cut by Python.
  // ---------------------------------------------------------------------------------------------

  function AllPieces(lines: seq<string>, crlf: seq<bool>): seq<string>
    requires |lines| == |crlf|
  {
    if lines == [] then [] else Pieces(PythonBreaks, lines[0], crlf[0]) + AllPieces(lines[1..], crlf[1..])
  }

  /** Python cuts the text line by line: every line of the diff gives its own pieces. */
  lemma {:induction false} SplitLinesOfText(lines: seq<string>, crlf: seq<bool>)
    requires |lines| == |crlf|
    ensures SplitLines(PythonBreaks, Text(lines, crlf)) == AllPieces(lines, crlf)
  {
    hide SplitLines, Pieces;
    if lines == [] {
      SplitNothing(PythonBreaks);
    } else {
      SplitFirstLine(PythonBreaks, lines[0], crlf[0], Text(lines[1..], crlf[1..]));
      SplitLinesOfText(lines[1..], crlf[1..]);
    }
  }

  lemma {:induction false} AllPiecesConcat(a: seq<string>, b: seq<string>, crlf: seq<bool>)
    requires |a| + |b| == |crlf|
    ensures AllPieces(a + b, crlf) == AllPieces(a, crlf[..|a|]) + AllPieces(b, crlf[|a|..])
  {
    hide Pieces;
    if a == [] {
      assert a + b == b && crlf[0..] == crlf;
    } else {
      AllPiecesConcat(a[1..], b, crlf[1..]);
      assert (a + b)[1..] == a[1..] + b;
      assert crlf[1..][..|a| - 1] == crlf[..|a|][1..] && crlf[1..][|a| - 1..] == crlf[|a|..];
    }
  }

  // The pieces behind the breaks of a line, whichever way the line ends.
  function Behind(line: string): seq<string> {
    Tail(PythonBreaks, line, false) + Tail(PythonBreaks, line, true)
  }

  // A piece that means nothing below a hunk header.
  predicate Neutral(p: string) {
    !StartsWith(p, "diff --git") && !StartsWith(p, "+") && !StartsWith(p, " ") && HunkStart(p).None?
  }

  // A piece that means nothing inside a file header.
  predicate Quiet(p: string) {
    && !StartsWith(p, "diff --git") && !StartsWith(p, "--- ") && !StartsWith(p, "+++ ")
    && HunkStart(p).None?
  }

  predicate NeutralBehind(line: string) {
    forall p | p in Behind(line) :: Neutral(p)
  }

  predicate QuietBehind(line: string) {
    forall p | p in Behind(line) :: Quiet(p)
  }

  // Outside a header, on no path that is scanned: nothing is handed on until a line starts a file.
  predicate Dead(st: State) {
    !st.inHeader && !Scannable(st)
  }

  // Pieces that hand nothing on when they come in a file that is not scanned, and leave the scan as dead.
  predicate Contained(ps: seq<string>, skip: string -> bool) {
    Requests(START, ps, skip) == [] && Dead(After(START, ps, skip))
  }

  predicate ContainedBehind(line: string, skip: string -> bool) {
    Contained(Tail(PythonBreaks, line, false), skip) && Contained(Tail(PythonBreaks, line, true), skip)
  }

  lemma {:induction false} NeutralRun(st: State, ps: seq<string>, skip: string -> bool)
    requires !st.inHeader && forall p | p in ps :: Neutral(p)
    ensures Requests(st, ps, skip) == [] && After(st, ps, skip) == st
    decreases ps
  {
    if ps != [] {
      assert Neutral(ps[0]);
      NeutralRun(st, ps[1..], skip);
    }
  }

  lemma {:induction false} QuietRun(st: State, ps: seq<string>, skip: string -> bool)
    requires st.inHeader && forall p | p in ps :: Quiet(p)
    ensures Requests(st, ps, skip) == []
    ensures After(st, ps, skip) == if ps == [] then st else st.(awaitingPlus := false)
    decreases ps
  {
    if ps != [] {
      assert Quiet(ps[0]);
      QuietRun(st.(awaitingPlus := false), ps[1..], skip);
    }
  }

  // A line with neutral pieces behind its breaks counts as its first piece.
  lemma NeutralLine(st: State, line: string, crlf: bool, skip: string -> bool)
    requires NeutralBehind(line) && !Step(st, First(PythonBreaks, line), skip).inHeader
    ensures var f := First(PythonBreaks, line);
            var ps := Pieces(PythonBreaks, line, crlf);
            Requests(st, ps, skip) == Emit(st, f) && After(st, ps, skip) == Step(st, f, skip)
  {
    hide Step, Emit, Pieces, Tail, First, Neutral, SplitLines;
    var f, tail := First(PythonBreaks, line), Tail(PythonBreaks, line, crlf);
    PiecesAre(PythonBreaks, line, crlf);
    RequestsCons(st, f, tail, skip);
    assert forall p | p in tail :: p in Behind(line);
    NeutralRun(Step(st, f, skip), tail, skip);
    assert Emit(st, f) + [] == Emit(st, f);
  }

  lemma QuietLine(st: State, line: string, crlf: bool, skip: string -> bool)
    requires QuietBehind(line) && Step(st, First(PythonBreaks, line), skip).inHeader
    ensures var f := First(PythonBreaks, line);
            var ps, st' := Pieces(PythonBreaks, line, crlf), Step(st, f, skip);
            && Requests(st, ps, skip) == Emit(st, f)
            && After(st, ps, skip) ==
               if Tail(PythonBreaks, line, crlf) == [] then st' else st'.(awaitingPlus := false)
  {
    hide Step, Emit, Pieces, Tail, First, Quiet, SplitLines;
    var f, tail := First(PythonBreaks, line), Tail(PythonBreaks, line, crlf);
    PiecesAre(PythonBreaks, line, crlf);
    RequestsCons(st, f, tail, skip);
    assert forall p | p in tail :: p in Behind(line);
    QuietRun(Step(st, f, skip), tail, skip);
    assert Emit(st, f) + [] == Emit(st, f);
  }

  lemma UnbrokenBehind(line: string)
    requires Unbroken(PythonBreaks, line)
    ensures Behind(line) == []
  {
    hide Tail, Pieces, SplitLines;
    PiecesAre(PythonBreaks, line, false);
    PiecesAre(PythonBreaks, line, true);
  }

  lemma PrefixBehind(a: string, line: string)
    requires Unbroken(PythonBreaks, a)
    ensures First(PythonBreaks, a + line) == a + First(PythonBreaks, line) && Behind(a + line) == Behind(line)
  {
    hide Tail, First, SplitLines;
    PrefixPieces(PythonBreaks, a, line, false);
    PrefixPieces(PythonBreaks, a, line, true);
  }

  // ---------------------------------------------------------------------------------------------
  // The scan of a rendered hunk and script.
  // ---------------------------------------------------------------------------------------------

  // Added lines cut at their first break.
  function HeadsOf(added: seq<(int, string)>): seq<(int, string)> {
    seq(|added|, i requires 0 <= i < |added| => (added[i].0, First(PythonBreaks, added[i].1)))
  }

  lemma YieldConcat(st: State, a: seq<(int, string)>, b: seq<(int, string)>)
    ensures Yield(st, HeadsOf(a + b)) == Yield(st, HeadsOf(a)) + Yield(st, HeadsOf(b))
  {
    assert HeadsOf(a + b) == HeadsOf(a) + HeadsOf(b);
    if st.path.Some? { ForPathConcat(st.path.value, HeadsOf(a), HeadsOf(b)); }
  }

  function CutLine(l: Line): Line {
    match l
    case Keep(t) => Keep(First(PythonBreaks, t))
    case Delete(t) => Delete(First(PythonBreaks, t))
    case Add(t) => Add(First(PythonBreaks, t))
    case NoNewline => NoNewline
  }

  lemma RenderedFirst(l: Line)
    ensures First(PythonBreaks, RenderLine(l)) == RenderLine(CutLine(l))
    ensures !l.NoNewline? ==> Behind(RenderLine(l)) == Behind(l.text)
    ensures l.NoNewline? ==> Behind(RenderLine(l)) == []
  {
    hide Behind, First;
    match l
    case Keep(t) => PrefixBehind(" ", t);
    case Delete(t) => PrefixBehind("-", t);
    case Add(t) => PrefixBehind("+", t);
    case NoNewline => UnbrokenBehind(RenderLine(l));
  }

  lemma {:induction false} LinesScan(st: State, ls: seq<Line>, before: nat, crlf: seq<bool>, skip: string -> bool)
    requires !st.inHeader && (NewCount(ls) > 0 ==> st.line == before + 1)
    requires |crlf| == |RenderLines(ls)| && forall l | l in RenderLines(ls) :: NeutralBehind(l)
    ensures Requests(st, AllPieces(RenderLines(ls), crlf), skip) == Yield(st, HeadsOf(AddedInLines(ls, before)))
    ensures After(st, AllPieces(RenderLines(ls), crlf), skip) == st.(line := st.line + NewCount(ls))
    decreases ls
  {
    hide Step, Emit, Pieces, NeutralBehind, Yield, HeadsOf;
    hide AllPieces, Requests, After, AddedInLines, NewCount, RenderLine;
    if ls == [] {
      NoLines(st, skip);
    } else {
      var next := before + NewCount([ls[0]]);
      var st1 := st.(line := st.line + NewCount([ls[0]]));
      AddedCons(ls, before);
      OneMore(ls[0]);
      LineNeutral(ls);
      LinesScan(st1, ls[1..], next, crlf[1..], skip);
      LineScan(st, ls[0], before, crlf[0], skip);
      PiecesCons(st, RenderLine(ls[0]), RenderLines(ls[1..]), crlf, skip);
      SameYield(st, st1, AddedInLines(ls[1..], next));
      YieldConcat(st, AddedInLines([ls[0]], before), AddedInLines(ls[1..], next));
    }
  }

  lemma NoLines(st: State, skip: string -> bool)
    ensures AllPieces(RenderLines([]), []) == [] && NewCount([]) == 0
    ensures Requests(st, [], skip) == [] && After(st, [], skip) == st
    ensures forall before: nat :: Yield(st, HeadsOf(AddedInLines([], before))) == []
  {
  }

  lemma LineNeutral(ls: seq<Line>)
    requires ls != [] && forall l | l in RenderLines(ls) :: NeutralBehind(l)
    ensures RenderLines(ls) == [RenderLine(ls[0])] + RenderLines(ls[1..])
    ensures NeutralBehind(RenderLine(ls[0])) && forall l | l in RenderLines(ls[1..]) :: NeutralBehind(l)
  {
    hide NeutralBehind, RenderLine;
    assert RenderLine(ls[0]) in RenderLines(ls);
    assert forall l | l in RenderLines(ls[1..]) :: l in RenderLines(ls);
  }

  lemma OneMore(l: Line)
    ensures NewCount([l]) == if l.Keep? || l.Add? then 1 else 0
  {
  }

  lemma AddedCons(ls: seq<Line>, before: nat)
    requires ls != []
    ensures NewCount(ls) == NewCount([ls[0]]) + NewCount(ls[1..])
    ensures AddedInLines(ls, before) ==
            AddedInLines([ls[0]], before) + AddedInLines(ls[1..], before + NewCount([ls[0]]))
  {
    assert [ls[0]][1..] == [];
  }

  lemma PiecesCons(st: State, raw: string, more: seq<string>, crlf: seq<bool>, skip: string -> bool)
    requires |crlf| == 1 + |more|
    ensures var head := Pieces(PythonBreaks, raw, crlf[0]);
            var st1, tail := After(st, head, skip), AllPieces(more, crlf[1..]);
            && Requests(st, AllPieces([raw] + more, crlf), skip) == Requests(st, head, skip) + Requests(st1, tail, skip)
            && After(st, AllPieces([raw] + more, crlf), skip) == After(st1, tail, skip)
  {
    hide Step, Emit, Pieces, Requests, After;
    assert ([raw] + more)[1..] == more;
    RequestsConcat(st, Pieces(PythonBreaks, raw, crlf[0]), AllPieces(more, crlf[1..]), skip);
  }

  lemma NothingYields(st: State)
    ensures Yield(st, HeadsOf([])) == []
  {
  }

  lemma SameYield(st: State, st': State, added: seq<(int, string)>)
    requires st.path == st'.path && st.skipping == st'.skipping
    ensures Yield(st, HeadsOf(added)) == Yield(st', HeadsOf(added))
  {
  }

  lemma LineScan(st: State, l: Line, before: nat, crlf: bool, skip: string -> bool)
    requires !st.inHeader && (l.Keep? || l.Add? ==> st.line == before + 1) && NeutralBehind(RenderLine(l))
    ensures var ps := Pieces(PythonBreaks, RenderLine(l), crlf);
            && Requests(st, ps, skip) == Yield(st, HeadsOf(AddedInLines([l], before)))
            && After(st, ps, skip) == st.(line := st.line + NewCount([l]))
  {
    hide Step, Emit, Pieces, NeutralBehind, First;
    RenderedFirst(l);
    StepLine(st, CutLine(l), skip);
    NeutralLine(st, RenderLine(l), crlf, skip);
    assert [l][1..] == [];
    assert AddedInLines([l], before) == if l.Add? then [(before + 1, l.text)] else [];
  }

  lemma HeaderFirst(ob: nat, oc: nat, nb: nat, nc: nat, heading: string)
    ensures First(PythonBreaks, HunkHeader(ob, oc, nb, nc, heading)) ==
            HunkHeader(ob, oc, nb, nc, First(PythonBreaks, heading))
  {
    hide First, RangeText;
    var a := "@@ -" + RangeText(ob, oc) + (" +" + (RangeText(nb, nc) + " @@"));
    HeaderPrefix(ob, oc, nb, nc, heading);
    HeaderPrefix(ob, oc, nb, nc, First(PythonBreaks, heading));
    RangeUnbroken(ob, oc);
    RangeUnbroken(nb, nc);
    assert Unbroken(PythonBreaks, a) by { UnbrokenParts("@@ -", RangeText(ob, oc), " +", RangeText(nb, nc), " @@"); }
    PrefixBehind(a, heading);
  }

  lemma HeaderPrefix(ob: nat, oc: nat, nb: nat, nc: nat, heading: string)
    ensures HunkHeader(ob, oc, nb, nc, heading) ==
            "@@ -" + RangeText(ob, oc) + (" +" + (RangeText(nb, nc) + " @@")) + heading
  {
    hide RangeText;
    var x, y := RangeText(ob, oc), RangeText(nb, nc);
    assert "@@ -" + x + (" +" + (y + (" @@" + heading))) == "@@ -" + x + (" +" + (y + " @@")) + heading;
  }

  lemma UnbrokenParts(a: string, b: string, c: string, d: string, e: string)
    requires Unbroken(PythonBreaks, a) && Unbroken(PythonBreaks, b) && Unbroken(PythonBreaks, c)
    requires Unbroken(PythonBreaks, d) && Unbroken(PythonBreaks, e)
    ensures Unbroken(PythonBreaks, a + b + (c + (d + e)))
  {
    forall x | x in a + b + (c + (d + e)) ensures !IsBreak(PythonBreaks, x) {
      assert x in a || x in b || x in c || x in d || x in e;
    }
  }

  lemma RangeUnbroken(before: nat, count: nat)
    ensures Unbroken(PythonBreaks, RangeText(before, count))
  {
    var n := if count == 0 then before else before + 1;
    assert forall c | c in Decimal(n) + ("," + Decimal(count)) :: IsDigit(c) || c == ',';
  }

  lemma HunkHeaderScan(st: State, ob: nat, oc: nat, nb: nat, nc: nat, heading: string, crlf: bool,
                       skip: string -> bool)
    requires NeutralBehind(HunkHeader(ob, oc, nb, nc, heading))
    ensures var ps := Pieces(PythonBreaks, HunkHeader(ob, oc, nb, nc, heading), crlf);
            && Requests(st, ps, skip) == []
            && After(st, ps, skip) == Below(st, nb, nc)
  {
    hide Step, Emit, Pieces, NeutralBehind, First, HunkHeader;
    HeaderFirst(ob, oc, nb, nc, heading);
    StepHunkHeader(st, ob, oc, nb, nc, First(PythonBreaks, heading), skip);
    NeutralLine(st, HunkHeader(ob, oc, nb, nc, heading), crlf, skip);
  }

  // The state below a hunk header.
  function Below(st: State, nb: nat, nc: nat): State {
    st.(inHeader := false, line := if nc == 0 then nb else nb + 1,
        awaitingPlus := if st.inHeader then false else st.awaitingPlus)
  }

  lemma {:induction false} ScriptScan(st: State, script: seq<Segment>, ob: nat, nb: nat, crlf: seq<bool>,
                                      skip: string -> bool)
    requires |crlf| == |RenderScript(script, ob, nb)|
    requires forall l | l in RenderScript(script, ob, nb) :: NeutralBehind(l)
    ensures Requests(st, AllPieces(RenderScript(script, ob, nb), crlf), skip) == Yield(st, HeadsOf(Added(script, nb)))
    decreases script
  {
    hide Step, Emit, HunkHeader, Pieces, NeutralBehind, Yield, HeadsOf, AllPieces;
    if script == [] {
      NothingYields(st);
      assert AllPieces([], []) == [] by { NoPieces(); }
    } else {
      match script[0]
      case Gap(ls) => ScriptScan(st, script[1..], ob + |ls|, nb + |ls|, crlf, skip);
      case Hunk(ls, heading) => HunkScan(st, script, ob, nb, crlf, skip);
    }
  }

  lemma NoPieces()
    ensures AllPieces([], []) == []
  {
  }

  lemma {:induction false} HunkScan(st: State, script: seq<Segment>, ob: nat, nb: nat, crlf: seq<bool>,
                                    skip: string -> bool)
    requires |crlf| == |RenderScript(script, ob, nb)| && script != [] && script[0].Hunk?
    requires forall l | l in RenderScript(script, ob, nb) :: NeutralBehind(l)
    ensures Requests(st, AllPieces(RenderScript(script, ob, nb), crlf), skip) == Yield(st, HeadsOf(Added(script, nb)))
    decreases script, 0
  {
    hide Step, Emit, HunkHeader, Pieces, NeutralBehind, Yield, HeadsOf;
    hide AllPieces, Requests, After, RenderScript, RenderLines, Added, AddedInLines;
    var ls := script[0].lines;
    var oc, nc := OldCount(ls), NewCount(ls);
    var raw, body := HunkHeader(ob, oc, nb, nc, script[0].heading), RenderLines(ls);
    var rest := RenderScript(script[1..], ob + oc, nb + nc);
    HunkRenders(script, ob, nb);
    HunkHeaderScan(st, ob, oc, nb, nc, script[0].heading, crlf[0], skip);
    var st1, c := Below(st, nb, nc), crlf[1..];
    ThreeParts(st, raw, body, rest, crlf, skip);
    LinesScan(st1, ls, nb, c[..|body|], skip);
    var st2 := st1.(line := st1.line + nc);
    ScriptScan(st2, script[1..], ob + oc, nb + nc, c[|body|..], skip);
    SameYield(st, st1, AddedInLines(ls, nb));
    SameYield(st, st2, Added(script[1..], nb + nc));
    YieldConcat(st, AddedInLines(ls, nb), Added(script[1..], nb + nc));
    assert [] + Yield(st, HeadsOf(AddedInLines(ls, nb))) == Yield(st, HeadsOf(AddedInLines(ls, nb)));
  }

  lemma HunkRenders(script: seq<Segment>, ob: nat, nb: nat)
    requires script != [] && script[0].Hunk?
    requires forall l | l in RenderScript(script, ob, nb) :: NeutralBehind(l)
    ensures var ls := script[0].lines;
            var oc, nc := OldCount(ls), NewCount(ls);
            var raw, rest := HunkHeader(ob, oc, nb, nc, script[0].heading), RenderScript(script[1..], ob + oc, nb + nc);
            && RenderScript(script, ob, nb) == [raw] + (RenderLines(ls) + rest)
            && Added(script, nb) == AddedInLines(ls, nb) + Added(script[1..], nb + nc)
            && NeutralBehind(raw)
            && (forall l | l in RenderLines(ls) :: NeutralBehind(l))
            && (forall l | l in rest :: NeutralBehind(l))
  {
    hide NeutralBehind, HunkHeader;
    var ls := script[0].lines;
    var oc, nc := OldCount(ls), NewCount(ls);
    var raw, rest := HunkHeader(ob, oc, nb, nc, script[0].heading), RenderScript(script[1..], ob + oc, nb + nc);
    assert RenderScript(script, ob, nb) == [raw] + RenderLines(ls) + rest;
    assert raw in RenderScript(script, ob, nb);
    assert forall l | l in RenderLines(ls) || l in rest :: l in RenderScript(script, ob, nb);
  }

  lemma ThreeParts(st: State, raw: string, body: seq<string>, rest: seq<string>, crlf: seq<bool>,
                   skip: string -> bool)
    requires |crlf| == 1 + |body| + |rest|
    ensures var c := crlf[1..];
            var head := Pieces(PythonBreaks, raw, crlf[0]);
            var st1 := After(st, head, skip);
            var st2 := After(st1, AllPieces(body, c[..|body|]), skip);
            Requests(st, AllPieces([raw] + (body + rest), crlf), skip) ==
            Requests(st, head, skip) + Requests(st1, AllPieces(body, c[..|body|]), skip)
            + Requests(st2, AllPieces(rest, c[|body|..]), skip)
  {
    hide Step, Emit, Pieces, Requests, After;
    var c := crlf[1..];
    var head := Pieces(PythonBreaks, raw, crlf[0]);
    assert ([raw] + (body + rest))[1..] == body + rest;
    AllPiecesConcat(body, rest, c);
    var st1 := After(st, head, skip);
    RequestsConcat(st, head, AllPieces(body + rest, c), skip);
    RequestsConcat(st1, AllPieces(body, c[..|body|]), AllPieces(rest, c[|body|..]), skip);
  }

  // All dead states are alike.
  lemma {:induction false} DeadAgree(st: State, st': State, ps: seq<string>, skip: string -> bool)
    requires (Dead(st) && Dead(st')) || st == st'
    ensures Requests(st, ps, skip) == Requests(st', ps, skip)
    ensures Dead(After(st, ps, skip)) <==> Dead(After(st', ps, skip))
    decreases ps
  {
    hide HunkStart, HeaderStep, PlusStep;
    if ps != [] {
      DeadAgree(Step(st, ps[0], skip), Step(st', ps[0], skip), ps[1..], skip);
    }
  }

  // In a file that is not scanned, a line with contained pieces hands nothing on and changes nothing.
  lemma DeadLine(st: State, line: string, crlf: bool, skip: string -> bool)
    requires ContainedBehind(line, skip) && Dead(Step(st, First(PythonBreaks, line), skip))
    requires Emit(st, First(PythonBreaks, line)) == []
    ensures var ps := Pieces(PythonBreaks, line, crlf);
            Requests(st, ps, skip) == [] && Dead(After(st, ps, skip))
  {
    hide Step, Emit, Pieces, Tail, First, SplitLines, Requests, After, Dead;
    var f, tail := First(PythonBreaks, line), Tail(PythonBreaks, line, crlf);
    PiecesAre(PythonBreaks, line, crlf);
    RequestsCons(st, f, tail, skip);
    StartIsDead();
    DeadAgree(Step(st, f, skip), START, tail, skip);
  }

  lemma StartIsDead()
    ensures Dead(START)
  {
  }

  lemma DeadStep(st: State, raw: string, skip: string -> bool)
    requires Dead(st) && !StartsWith(raw, "diff --git")
    ensures Dead(Step(st, raw, skip)) && Emit(st, raw) == []
  {
    hide HunkStart;
  }

  lemma {:induction false} DeadLines(st: State, lines: seq<string>, crlf: seq<bool>, skip: string -> bool)
    requires |lines| == |crlf| && Dead(st)
    requires forall l | l in lines :: ContainedBehind(l, skip) && !StartsWith(l, "diff --git")
    ensures Requests(st, AllPieces(lines, crlf), skip) == []
    decreases lines
  {
    hide Step, Emit, Pieces, First, ContainedBehind, Dead;
    if lines != [] {
      var l := lines[0];
      assert l in lines && First(PythonBreaks, l) <= l;
      DeadStep(st, First(PythonBreaks, l), skip);
      DeadLine(st, l, crlf[0], skip);
      var ps := Pieces(PythonBreaks, l, crlf[0]);
      RequestsConcat(st, ps, AllPieces(lines[1..], crlf[1..]), skip);
      DeadLines(After(st, ps, skip), lines[1..], crlf[1..], skip);
    }
  }

  // Pieces of which none starts a file are contained.
  lemma {:induction false} FilelessIsContained(st: State, ps: seq<string>, skip: string -> bool)
    requires Dead(st) && forall p | p in ps :: !StartsWith(p, "diff --git")
    ensures Requests(st, ps, skip) == [] && Dead(After(st, ps, skip))
    decreases ps
  {
    hide Step, Emit, Dead;
    if ps != [] {
      assert ps[0] in ps;
      DeadStep(st, ps[0], skip);
      FilelessIsContained(Step(st, ps[0], skip), ps[1..], skip);
    }
  }

  lemma {:induction false} BodyLinesStartNoFile(script: seq<Segment>, ob: nat, nb: nat, l: string)
    requires l in RenderScript(script, ob, nb)
    ensures !StartsWith(l, "diff --git")
    decreases script
  {
    match script[0]
    case Gap(ls) => BodyLinesStartNoFile(script[1..], ob + |ls|, nb + |ls|, l);
    case Hunk(ls, heading) =>
      var rest := RenderScript(script[1..], ob + OldCount(ls), nb + NewCount(ls));
      if l in rest {
        BodyLinesStartNoFile(script[1..], ob + OldCount(ls), nb + NewCount(ls), l);
      } else if l in RenderLines(ls) {
        RenderedLineStarts(ls, l);
      } else {
        assert l == HunkHeader(ob, OldCount(ls), nb, NewCount(ls), heading) && l[0] == '@';
      }
  }

  lemma {:induction false} RenderedLineStarts(ls: seq<Line>, l: string)
    requires l in RenderLines(ls)
    ensures l != "" && l[0] in "+- \\"
  {
    if l != RenderLine(ls[0]) { RenderedLineStarts(ls[1..], l); }
  }

  lemma {:induction false} UnscannedScript(st: State, script: seq<Segment>, ob: nat, nb: nat, crlf: seq<bool>,
                                           skip: string -> bool)
    requires |crlf| == |RenderScript(script, ob, nb)| && !Scannable(st)
    requires forall l | l in RenderScript(script, ob, nb) :: ContainedBehind(l, skip)
    ensures Requests(st, AllPieces(RenderScript(script, ob, nb), crlf), skip) == []
    decreases script
  {
    hide Step, Emit, HunkHeader, Pieces, ContainedBehind, AllPieces, First, Requests, After;
    if script == [] {
      NoPieces();
      NothingRequested(st, skip);
    } else if script[0].Gap? {
      var n := |script[0].hidden|;
      UnscannedScript(st, script[1..], ob + n, nb + n, crlf, skip);
    } else {
      var lines := RenderScript(script, ob, nb);
      forall l | l in lines ensures !StartsWith(l, "diff --git") { BodyLinesStartNoFile(script, ob, nb, l); }
      var ls, heading := script[0].lines, script[0].heading;
      var raw := HunkHeader(ob, OldCount(ls), nb, NewCount(ls), heading);
      assert lines[0] == raw && lines == [raw] + lines[1..] && raw in lines;
      HeaderFirst(ob, OldCount(ls), nb, NewCount(ls), heading);
      StepHunkHeader(st, ob, OldCount(ls), nb, NewCount(ls), First(PythonBreaks, heading), skip);
      DeadLine(st, raw, crlf[0], skip);
      PiecesCons(st, raw, lines[1..], crlf, skip);
      DeadLines(After(st, Pieces(PythonBreaks, raw, crlf[0]), skip), lines[1..], crlf[1..], skip);
    }
  }

  lemma NothingRequested(st: State, skip: string -> bool)
    ensures Requests(st, [], skip) == []
  {
  }

  lemma FirstThenRest(lines: seq<string>, crlf: seq<bool>)
    requires |lines| == |crlf| > 0
    ensures AllPieces(lines, crlf) != []
    ensures AllPieces(lines, crlf) == [First(PythonBreaks, lines[0])] + AllPieces(lines, crlf)[1..]
  {
    hide Pieces, Tail, First, SplitLines, Rest, AfterBreak, Unbroken;
    PiecesAre(PythonBreaks, lines[0], crlf[0]);
    HeadOfBoth([First(PythonBreaks, lines[0])], Tail(PythonBreaks, lines[0], crlf[0]), AllPieces(lines[1..], crlf[1..]));
  }

  lemma HeadOfBoth(f: seq<string>, tail: seq<string>, more: seq<string>)
    requires |f| == 1
    ensures (f + tail) + more == f + ((f + tail) + more)[1..]
  {
  }

  // ---------------------------------------------------------------------------------------------
  // The scan of a file header.
  // ---------------------------------------------------------------------------------------------

  // An extended header line: index, mode, similarity, rename, binary and the like.
  predicate Inert(l: string) {
    !StartsWith(l, "diff --git") && !StartsWith(l, "--- ") && !StartsWith(l, "@@")
  }

  const HEADER := State(None, 0, true, true, false)

  lemma {:induction false} ExtendedScan(ls: seq<string>, crlf: seq<bool>, skip: string -> bool)
    requires |ls| == |crlf| && forall l | l in ls :: Inert(l) && QuietBehind(l)
    ensures Requests(HEADER, AllPieces(ls, crlf), skip) == [] && After(HEADER, AllPieces(ls, crlf), skip) == HEADER
  {
    hide Pieces, QuietBehind, First, Tail, SplitLines;
    if ls != [] {
      assert Inert(ls[0]) && QuietBehind(ls[0]);
      var f := First(PythonBreaks, ls[0]);
      assert f <= ls[0];
      assert Step(HEADER, f, skip) == HEADER && Emit(HEADER, f) == [];
      QuietLine(HEADER, ls[0], crlf[0], skip);
      RequestsConcat(HEADER, Pieces(PythonBreaks, ls[0], crlf[0]), AllPieces(ls[1..], crlf[1..]), skip);
      ExtendedScan(ls[1..], crlf[1..], skip);
    }
  }

  lemma {:induction false} StripRightPrefix(a: string, b: string)
    requires a != "" && !IsSpace(a[|a| - 1])
    ensures StripRight(a + b) == a + StripRight(b)
  {
    if b == "" {
      assert a + b == a;
    } else if IsSpace(b[|b| - 1]) {
      assert (a + b)[..|a + b| - 1] == a + b[..|b| - 1];
      StripRightPrefix(a, b[..|b| - 1]);
    }
  }

  // A side is shown as one half of a ---/+++ pair.
  predicate Recognised(side: Side) {
    side.Absent? || side.name.Plain?
  }

  // The path the scan makes of the +++ line.
  function ShownPath(side: Side): Option<string> {
    match side
    case Absent => None
    case Present(Plain(path, _)) => Some(StripRight(First(PythonBreaks, path)))
    case Present(Quoted(_, shown)) => Some(StripRight(First(PythonBreaks, "\"b/" + shown + "\"")))
  }

  function ReadPath(fd: FileDiff): Option<string> {
    if Recognised(fd.source) && Unbroken(PythonBreaks, Label("a/", fd.source)) then ShownPath(fd.target) else None
  }

  lemma LabelFirst(prefix: string, side: Side)
    requires prefix == "a/" || prefix == "b/"
    ensures side.Absent? ==> First(PythonBreaks, Label(prefix, side)) == "/dev/null"
    ensures side.Present? && side.name.Plain? ==>
              var f, g := First(PythonBreaks, Label(prefix, side)), First(PythonBreaks, side.name.path);
              f == prefix + g || f == prefix + (g + "\t")
  {
    hide First;
    var l := Label(prefix, side);
    assert Unbroken(PythonBreaks, prefix);
    if side.Absent? {
      assert Unbroken(PythonBreaks, l);
    } else if side.name.Plain? {
      var path, tail := side.name.path, if side.name.tab then "\t" else "";
      assert l == prefix + (path + tail);
      PrefixBehind(prefix, path + tail);
      if Unbroken(PythonBreaks, path) {
        assert Unbroken(PythonBreaks, path + tail);
        assert path + "" == path;
      } else {
        FirstOfBroken(path, tail);
      }
    }
  }

  lemma FirstOfBroken(a: string, b: string)
    requires !Unbroken(PythonBreaks, a)
    ensures First(PythonBreaks, a + b) == First(PythonBreaks, a)
  {
    hide LineLength;
    var f, g := First(PythonBreaks, a), Rest(PythonBreaks, a);
    assert a + b == f + (g + b);
    LineLengthIs(PythonBreaks, f, g + b);
    assert (a + b)[..|f|] == f;
  }

  lemma StripPlain(prefix: string, g: string)
    requires prefix == "a/" || prefix == "b/"
    ensures Strip(prefix + g) == prefix + StripRight(g)
    ensures Strip(prefix + (g + "\t")) == prefix + StripRight(g)
  {
    StripRightPrefix(prefix, g);
    StripRightPrefix(prefix, g + "\t");
    assert (g + "\t")[..|g|] == g;
    assert StripLeft(prefix + g) == prefix + g && StripLeft(prefix + (g + "\t")) == prefix + (g + "\t");
  }

  // What the scan makes of the first piece of a label.
  lemma StripLabel(prefix: string, side: Side)
    requires prefix == "a/" || prefix == "b/"
    ensures Strip(First(PythonBreaks, Label(prefix, side))) ==
            match side
            case Absent => "/dev/null"
            case Present(Plain(path, _)) => prefix + StripRight(First(PythonBreaks, path))
            case Present(Quoted(_, shown)) => StripRight(First(PythonBreaks, "\"" + prefix + shown + "\""))
    ensures side.Present? && side.name.Quoted? ==>
              var t := Strip(First(PythonBreaks, Label(prefix, side))); t != "" && t[0] == '\"'
  {
    hide First, Label;
    LabelFirst(prefix, side);
    match side
    case Absent => DevNullStrips();
    case Present(Plain(path, _)) => StripPlain(prefix, First(PythonBreaks, path));
    case Present(Quoted(_, shown)) => QuotedFirst(prefix, side);
  }

  lemma DevNullStrips()
    ensures Strip("/dev/null") == "/dev/null"
  {
    var s := "/dev/null";
    assert !IsSpace(s[0]) && !IsSpace(s[|s| - 1]);
  }

  lemma QuotedFirst(prefix: string, side: Side)
    requires (prefix == "a/" || prefix == "b/") && side.Present? && side.name.Quoted?
    ensures var f := First(PythonBreaks, "\"" + prefix + side.name.shown + "\"");
            && First(PythonBreaks, Label(prefix, side)) == f
            && Strip(f) == StripRight(f) && StripRight(f) != "" && StripRight(f)[0] == '\"'
  {
    hide First;
    var q := "\"" + (prefix + side.name.shown + "\"");
    assert "\"" + prefix + side.name.shown + "\"" == q == Label(prefix, side);
    PrefixBehind("\"", prefix + side.name.shown + "\"");
    var f, g := First(PythonBreaks, q), First(PythonBreaks, prefix + side.name.shown + "\"");
    assert f == "\"" + g && f[0] == '\"';
    StripRightPrefix("\"", g);
    assert StripLeft(f) == f;
  }

  // The state behind the header of a file.
  function Opened(path: Option<string>, skip: string -> bool): State {
    State(path, 0, path.None? || skip(path.value), true, false)
  }

  // Git's own rules: no empty name; a deleted file keeps no line; control characters are escaped; escapes
  // never shorten a name and break no line that the name itself does not break.
  predicate WellFormedName(n: Name) {
    && n.path != ""
    && match n
       case Plain(path, _) => forall c | c in path :: c >= ' '
       case Quoted(path, shown) =>
         && (forall c | c in shown :: c >= ' ')
         && |shown| >= |path|
         && (Unbroken(PythonBreaks, path) ==> Unbroken(PythonBreaks, shown))
  }

  predicate WellFormed(fd: FileDiff) {
    && (forall l | l in fd.extended :: Inert(l))
    && (fd.source.Present? ==> WellFormedName(fd.source.name))
    && (fd.target.Present? ==> WellFormedName(fd.target.name))
    && (fd.target.Absent? ==> Added(fd.script, 0) == [])
  }

  lemma MinusFirst(side: Side, skip: string -> bool)
    ensures var raw := "--- " + First(PythonBreaks, Label("a/", side));
            Step(HEADER, raw, skip) == HEADER.(awaitingPlus := Recognised(side)) && Emit(HEADER, raw) == []
  {
    hide Label, Strip, StripRight, ParseRange, PlusStep, First;
    var f := First(PythonBreaks, Label("a/", side));
    var raw := "--- " + f;
    assert raw[4..] == f && raw[0] == '-';
    StripLabel("a/", side);
    var target := Strip(raw[4..]);
    assert Recognised(side) <==> target == "/dev/null" || StartsWith(target, "a/") by {
      if side.Present? && side.name.Quoted? { assert target[0] == '\"'; }
    }
  }

  lemma MinusScan(side: Side, crlf: bool, skip: string -> bool)
    requires side.Present? ==> WellFormedName(side.name)
    requires QuietBehind("--- " + Label("a/", side))
    ensures var ps := Pieces(PythonBreaks, "--- " + Label("a/", side), crlf);
            && Requests(HEADER, ps, skip) == []
            && After(HEADER, ps, skip) ==
               HEADER.(awaitingPlus := Recognised(side) && Unbroken(PythonBreaks, Label("a/", side)))
  {
    hide Label, Step, Emit, Pieces, Tail, First, QuietBehind, Requests, After, SplitLines;
    var shown := Label("a/", side);
    var raw := "--- " + shown;
    PrefixBehind("--- ", shown);
    PrefixPieces(PythonBreaks, "--- ", shown, crlf);
    MinusFirst(side, skip);
    QuietLine(HEADER, raw, crlf, skip);
    if Unbroken(PythonBreaks, shown) {
      PiecesAre(PythonBreaks, shown, crlf);
    } else {
      LabelHasNoReturn("a/", side);
      BrokenHasTail(PythonBreaks, shown, crlf);
    }
  }

  lemma LabelHasNoReturn(prefix: string, side: Side)
    requires (prefix == "a/" || prefix == "b/") && (side.Present? ==> WellFormedName(side.name))
    ensures '\r' !in Label(prefix, side)
  {
  }

  lemma PlusTarget(side: Side, skip: string -> bool)
    ensures var raw := "+++ " + First(PythonBreaks, Label("b/", side));
            PlusStep(HEADER.(awaitingPlus := true), raw, skip) == Opened(ShownPath(side), skip)
  {
    hide Label, Strip, StripRight, First;
    var f := First(PythonBreaks, Label("b/", side));
    var raw := "+++ " + f;
    assert raw[4..] == f;
    StripLabel("b/", side);
    var target := Strip(raw[4..]);
    assert "\"" + "b/" == "\"b/";
    if side.Present? && side.name.Plain? {
      assert target[0] == 'b' && target[2..] == StripRight(First(PythonBreaks, side.name.path));
    }
  }

  lemma PlusScan(side: Side, awaiting: bool, crlf: bool, skip: string -> bool)
    requires QuietBehind("+++ " + Label("b/", side))
    ensures var ps := Pieces(PythonBreaks, "+++ " + Label("b/", side), crlf);
            var st := HEADER.(awaitingPlus := awaiting);
            && Requests(st, ps, skip) == []
            && After(st, ps, skip) == Opened(if awaiting then ShownPath(side) else None, skip)
  {
    hide Label, Strip, ParseRange, PlusStep, Pieces, Tail, First, QuietBehind, Requests, After, SplitLines;
    var f := First(PythonBreaks, Label("b/", side));
    PrefixBehind("+++ ", Label("b/", side));
    var raw := "+++ " + f;
    assert raw[0] == '+' && StartsWith(raw, "+++ ");
    PlusTarget(side, skip);
    QuietLine(HEADER.(awaitingPlus := awaiting), "+++ " + Label("b/", side), crlf, skip);
  }

  lemma TitleScan(st: State, title: string, crlf: bool, skip: string -> bool)
    requires QuietBehind("diff --git" + title)
    ensures var ps := Pieces(PythonBreaks, "diff --git" + title, crlf);
            Requests(st, ps, skip) == [] && After(st, ps, skip) == HEADER
  {
    hide Pieces, Tail, First, QuietBehind, Requests, After, SplitLines;
    PrefixBehind("diff --git", title);
    var f := "diff --git" + First(PythonBreaks, title);
    assert Step(st, f, skip) == HEADER && Emit(st, f) == [];
    QuietLine(st, "diff --git" + title, crlf, skip);
  }

  // ---------------------------------------------------------------------------------------------
  // A file.
  // ---------------------------------------------------------------------------------------------

  lemma {:induction false} NoHunkNoText(script: seq<Segment>, ob: nat, nb: nat)
    requires !HasHunk(script)
    ensures RenderScript(script, ob, nb) == [] && Added(script, nb) == []
    decreases script
  {
    if script != [] {
      assert script[0] in script;
      assert !HasHunk(script[1..]);
      NoHunkNoText(script[1..], ob + |script[0].hidden|, nb + |script[0].hidden|);
    }
  }

  function Pair(fd: FileDiff): seq<string> {
    if HasHunk(fd.script) then ["--- " + Label("a/", fd.source), "+++ " + Label("b/", fd.target)] else []
  }

  // The header lines of the file hold no piece that means anything in a header.
  predicate HeaderQuiet(fd: FileDiff) {
    && QuietBehind("diff --git" + fd.title)
    && (forall l | l in fd.extended :: QuietBehind(l))
    && (forall l | l in Pair(fd) :: QuietBehind(l))
  }

  lemma PairScan(fd: FileDiff, crlf: seq<bool>, skip: string -> bool)
    requires WellFormed(fd) && HeaderQuiet(fd) && HasHunk(fd.script) && |crlf| == 2
    ensures Requests(HEADER, AllPieces(Pair(fd), crlf), skip) == []
    ensures After(HEADER, AllPieces(Pair(fd), crlf), skip) == Opened(ReadPath(fd), skip)
  {
    hide Step, Emit, Label, Pieces, QuietBehind, Requests, After, AllPieces;
    var minus, plus := "--- " + Label("a/", fd.source), "+++ " + Label("b/", fd.target);
    assert Pair(fd) == [minus] + [plus] && minus in Pair(fd) && plus in Pair(fd);
    MinusScan(fd.source, crlf[0], skip);
    var awaiting := Recognised(fd.source) && Unbroken(PythonBreaks, Label("a/", fd.source));
    PlusScan(fd.target, awaiting, crlf[1], skip);
    PiecesCons(HEADER, minus, [plus], crlf, skip);
    OneLinePieces(plus, crlf[1..]);
  }

  lemma OneLinePieces(l: string, crlf: seq<bool>)
    requires |crlf| == 1
    ensures AllPieces([l], crlf) == Pieces(PythonBreaks, l, crlf[0])
  {
    hide Pieces;
    assert AllPieces([l][1..], crlf[1..]) == [];
  }

  // Where the lines of the script start among the lines of the file.
  function Offset(fd: FileDiff): nat {
    1 + |fd.extended| + |Pair(fd)|
  }

  /** The header of a file: whatever came before, the scan reaches its first hunk with the path it has read
      and nothing handed on. */
  lemma FileHeaderScan(st: State, fd: FileDiff, crlf: seq<bool>, skip: string -> bool)
    requires WellFormed(fd) && HeaderQuiet(fd) && HasHunk(fd.script) && |crlf| == |RenderFile(fd)|
    ensures Offset(fd) <= |crlf| && |crlf[Offset(fd)..]| == |RenderScript(fd.script, 0, 0)|
    ensures Requests(st, AllPieces(RenderFile(fd), crlf), skip) ==
            Requests(Opened(ReadPath(fd), skip), AllPieces(RenderScript(fd.script, 0, 0), crlf[Offset(fd)..]), skip)
  {
    hide Step, Emit, Label, RenderScript, Pieces, Requests, After, AllPieces, QuietBehind, HasHunk, ReadPath, Inert;
    var title, pair, body := "diff --git" + fd.title, Pair(fd), RenderScript(fd.script, 0, 0);
    assert RenderFile(fd) == [title] + (fd.extended + (pair + body));
    TitleScan(st, fd.title, crlf[0], skip);
    ThreeParts(st, title, fd.extended, pair + body, crlf, skip);
    var c := crlf[1..];
    ExtendedScan(fd.extended, c[..|fd.extended|], skip);
    var d := c[|fd.extended|..];
    AllPiecesConcat(pair, body, d);
    RequestsConcat(HEADER, AllPieces(pair, d[..|pair|]), AllPieces(body, d[|pair|..]), skip);
    PairScan(fd, d[..|pair|], skip);
    assert d[|pair|..] == crlf[Offset(fd)..];
  }

  lemma NoHunkScan(st: State, fd: FileDiff, crlf: seq<bool>, skip: string -> bool)
    requires WellFormed(fd) && HeaderQuiet(fd) && !HasHunk(fd.script) && |crlf| == |RenderFile(fd)|
    ensures Requests(st, AllPieces(RenderFile(fd), crlf), skip) == []
  {
    hide Step, Emit, Label, RenderScript, Pieces, Requests, After, AllPieces, QuietBehind, HasHunk, Inert;
    NoHunkNoText(fd.script, 0, 0);
    var title := "diff --git" + fd.title;
    assert RenderFile(fd) == [title] + fd.extended;
    TitleScan(st, fd.title, crlf[0], skip);
    PiecesCons(st, title, fd.extended, crlf, skip);
    ExtendedScan(fd.extended, crlf[1..], skip);
  }
}
