/**
 The scan of the added lines of a git diff: `Step` is one turn of the line loop over its five variables and
 `ScanDiff` the loop itself.
 */
module DiffScan {
  import opened PythonDigits
  import opened Options
  import opened TextLines

  // What is handed to the line scanner.
  datatype Request = Request(path: string, line: int, text: string)

  // ---------------------------------------------------------------------------------------------
  // str.strip, str.startswith and the hunk header pattern.
  // ---------------------------------------------------------------------------------------------

  predicate IsSpace(c: char) {
    || '\t' <= c <= '\r' || '\U{1C}' <= c <= ' ' || c == '\U{85}' || c == '\U{A0}' || c == '\U{1680}'
    || '\U{2000}' <= c <= '\U{200A}' || c == '\U{2028}' || c == '\U{2029}' || c == '\U{202F}'
    || c == '\U{205F}' || c == '\U{3000}'
  }

  function StripRight(s: string): string {
    if s != "" && IsSpace(s[|s| - 1]) then StripRight(s[..|s| - 1]) else s
  }

  function StripLeft(s: string): string {
    if s != "" && IsSpace(s[0]) then StripLeft(s[1..]) else s
  }

  function Strip(s: string): string {
    StripRight(StripLeft(s))
  }

  predicate StartsWith(s: string, prefix: string) {
    prefix <= s
  }

  function DigitRun(s: string): (n: nat)
    ensures n <= |s|
  {
    if s != "" && IsDecimal(s[0]) then 1 + DigitRun(s[1..]) else 0
  }

  lemma {:induction false} DigitRunIsDigits(s: string)
    ensures forall c | c in s[..DigitRun(s)] :: IsDecimal(c)
  {
    hide IsDecimal;
    if s != "" && IsDecimal(s[0]) {
      DigitRunIsDigits(s[1..]);
      assert s[..DigitRun(s)] == [s[0]] + s[1..][..DigitRun(s[1..])];
    }
  }

  // `\d+(?:,\d+)?` at the start of s: the number and what is left.
  function ParseRange(s: string): Option<(nat, string)> {
    var n := DigitRun(s);
    if n == 0 then None
    else
      DigitRunIsDigits(s);
      var start := Number(s[..n]);
      var rest := s[n..];
      if rest != "" && rest[0] == ',' then
        var m := DigitRun(rest[1..]);
        if m == 0 then None else Some((start, rest[1..][m..]))
      else Some((start, rest))
  }

  // The new-file start in a hunk header, if the line is one.
  function HunkStart(raw: string): Option<nat> {
    if !StartsWith(raw, "@@ -") then None
    else
      match ParseRange(raw[4..])
      case None => None
      case Some((_, rest)) =>
        if !StartsWith(rest, " +") then None
        else
          match ParseRange(rest[2..])
          case None => None
          case Some((start, tail)) => if StartsWith(tail, " @@") then Some(start) else None
  }

  // ---------------------------------------------------------------------------------------------
  // The line loop.
  // ---------------------------------------------------------------------------------------------

  datatype State = State(path: Option<string>, line: int, skipping: bool, inHeader: bool, awaitingPlus: bool)

  const START := State(None, 0, true, false, false)

  // A header line that is not part of a ---/+++ pair just completed.
  function HeaderStep(st: State, raw: string): State {
    var st' := st.(awaitingPlus := false);
    if StartsWith(raw, "--- ") && (Strip(raw[4..]) == "/dev/null" || StartsWith(Strip(raw[4..]), "a/")) then
      st'.(awaitingPlus := true)
    else
      match HunkStart(raw)
      case Some(n) => st'.(inHeader := false, line := n)
      case None => st'
  }

  // The +++ line of a pair.
  function PlusStep(st: State, raw: string, skip: string -> bool): State
    requires StartsWith(raw, "+++ ")
  {
    var target := Strip(raw[4..]);
    if target == "/dev/null" then st.(awaitingPlus := false, path := None, skipping := true)
    else
      var path := if StartsWith(target, "b/") then target[2..] else target;
      st.(awaitingPlus := false, path := Some(path), skipping := skip(path))
  }

  // A line below a hunk header.
  function BodyStep(st: State, raw: string): State {
    match HunkStart(raw)
    case Some(n) => st.(line := n)
    case None =>
      if StartsWith(raw, "+") || StartsWith(raw, " ") then st.(line := st.line + 1) else st
  }

  function Step(st: State, raw: string, skip: string -> bool): State {
    if StartsWith(raw, "diff --git") then State(None, 0, true, true, false)
    else if st.inHeader then
      if st.awaitingPlus && StartsWith(raw, "+++ ") then PlusStep(st, raw, skip) else HeaderStep(st, raw)
    else BodyStep(st, raw)
  }

  predicate Scannable(st: State) {
    st.path.Some? && st.path.value != "" && !st.skipping
  }

  function Emit(st: State, raw: string): seq<Request> {
    if !StartsWith(raw, "diff --git") && !st.inHeader && HunkStart(raw).None? && StartsWith(raw, "+") && Scannable(st)
    then [Request(st.path.value, st.line, raw[1..])] else []
  }

  function After(st: State, lines: seq<string>, skip: string -> bool): State
    decreases lines
  {
    if lines == [] then st else After(Step(st, lines[0], skip), lines[1..], skip)
  }

  function Requests(st: State, lines: seq<string>, skip: string -> bool): seq<Request>
    decreases lines
  {
    if lines == [] then [] else Emit(st, lines[0]) + Requests(Step(st, lines[0], skip), lines[1..], skip)
  }

  function Scanned<F>(rs: seq<Request>, scanLine: (string, int, string) -> seq<F>): seq<F> {
    if rs == [] then [] else scanLine(rs[0].path, rs[0].line, rs[0].text) + Scanned(rs[1..], scanLine)
  }

  lemma {:induction false} ScannedConcat<F>(a: seq<Request>, b: seq<Request>, scanLine: (string, int, string) -> seq<F>)
    ensures Scanned(a + b, scanLine) == Scanned(a, scanLine) + Scanned(b, scanLine)
  {
    if a == [] {
      assert a + b == b;
    } else {
      assert (a + b)[1..] == a[1..] + b;
      ScannedConcat(a[1..], b, scanLine);
    }
  }

  ghost predicate IsBlock<F>(findings: seq<F>, a: nat, b: nat, block: seq<F>) {
    a <= b <= |findings| && findings[a..b] == block
  }

  // The findings are the scanner's findings on request 0, then those on request 1, and so on: cuts[i] is where
  // the block of request i begins.
  ghost predicate InBlocks<F>(findings: seq<F>, rs: seq<Request>, scanLine: (string, int, string) -> seq<F>,
                              cuts: seq<nat>)
  {
    && |cuts| == |rs| + 1 && cuts[0] == 0 && cuts[|rs|] == |findings|
    && forall i | 0 <= i < |rs| ::
         IsBlock(findings, cuts[i], cuts[i + 1], scanLine(rs[i].path, rs[i].line, rs[i].text))
  }

  lemma {:induction false} ScannedInBlocks<F>(rs: seq<Request>, scanLine: (string, int, string) -> seq<F>)
    returns (cuts: seq<nat>)
    ensures InBlocks(Scanned(rs, scanLine), rs, scanLine, cuts)
  {
    if rs == [] {
      cuts := [0];
    } else {
      var n := |rs| - 1;
      var init, r := rs[..n], rs[n];
      var before := ScannedInBlocks(init, scanLine);
      ScannedConcat(init, [r], scanLine);
      assert rs == init + [r];
      ScannedOne(r, scanLine);
      var all, part := Scanned(rs, scanLine), Scanned(init, scanLine);
      cuts := before + [|all|];
      assert all == part + scanLine(r.path, r.line, r.text);
      forall i | 0 <= i < |rs|
        ensures IsBlock(all, cuts[i], cuts[i + 1], scanLine(rs[i].path, rs[i].line, rs[i].text))
      {
        if i < n {
          assert init[i] == rs[i];
          assert IsBlock(part, before[i], before[i + 1], scanLine(init[i].path, init[i].line, init[i].text));
          assert all[cuts[i]..cuts[i + 1]] == part[before[i]..before[i + 1]];
        }
      }
    }
  }

  lemma ScannedOne<F>(r: Request, scanLine: (string, int, string) -> seq<F>)
    ensures Scanned([r], scanLine) == scanLine(r.path, r.line, r.text)
  {
    assert Scanned([r][1..], scanLine) == [];
  }

  // A scanner that reports what it is handed.
  function Echo(path: string, line: int, text: string): seq<Request> {
    [Request(path, line, text)]
  }

  lemma {:induction false} ScannedEcho(rs: seq<Request>)
    ensures Scanned(rs, Echo) == rs
  {
    if rs != [] { ScannedEcho(rs[1..]); }
  }

  /** On every input whatever, nothing is handed on without a path or under a path that is skipped. */
  lemma {:induction false} RequestsHavePaths(st: State, lines: seq<string>, skip: string -> bool)
    requires st.path.Some? ==> st.skipping == skip(st.path.value)
    ensures forall r | r in Requests(st, lines, skip) :: r.path != "" && !skip(r.path)
    decreases lines
  {
    hide HunkStart, Strip;
    if lines != [] { RequestsHavePaths(Step(st, lines[0], skip), lines[1..], skip); }
  }

  lemma {:induction false} StripRightMeans(s: string) returns (b: string)
    ensures s == StripRight(s) + b && forall c | c in b :: IsSpace(c)
    ensures StripRight(s) != "" ==> !IsSpace(StripRight(s)[|StripRight(s)| - 1])
  {
    if s != "" && IsSpace(s[|s| - 1]) {
      b := StripRightMeans(s[..|s| - 1]);
      b := b + [s[|s| - 1]];
      assert s == s[..|s| - 1] + [s[|s| - 1]];
    } else {
      b := "";
      assert s == s + "";
    }
  }

  lemma {:induction false} StripLeftMeans(s: string) returns (a: string)
    ensures s == a + StripLeft(s) && forall c | c in a :: IsSpace(c)
    ensures StripLeft(s) != "" ==> !IsSpace(StripLeft(s)[0])
  {
    if s != "" && IsSpace(s[0]) {
      a := StripLeftMeans(s[1..]);
      a := [s[0]] + a;
      assert s == [s[0]] + s[1..];
    } else {
      a := "";
      assert s == "" + s;
    }
  }

  /** Stripping takes the white space off both ends and nothing else. */
  lemma StripMeans(s: string) returns (a: string, b: string)
    ensures s == a + Strip(s) + b && forall c | c in a + b :: IsSpace(c)
    ensures Strip(s) != "" ==> !IsSpace(Strip(s)[0]) && !IsSpace(Strip(s)[|Strip(s)| - 1])
  {
    a := StripLeftMeans(s);
    b := StripRightMeans(StripLeft(s));
    assert Strip(s) != "" ==> Strip(s)[0] == StripLeft(s)[0];
  }

  // A line inside a file header: the ---/+++ pair, the first hunk header, or nothing of interest.
  method HeaderTurn(st: State, raw: string, skip: string -> bool) returns (st': State)
    requires st.inHeader && !StartsWith(raw, "diff --git")
    ensures st' == Step(st, raw, skip)
  {
    hide HunkStart, Strip;
    var path, line, skipping, inHeader, awaitingPlus := st.path, st.line, st.skipping, true, st.awaitingPlus;
    if awaitingPlus {
      awaitingPlus := false;
      if StartsWith(raw, "+++ ") {
        var target := Strip(raw[4..]);
        if target == "/dev/null" {
          path, skipping := None, true;
        } else {
          path := Some(if StartsWith(target, "b/") then target[2..] else target);
          skipping := skip(path.value);
        }
        return State(path, line, skipping, inHeader, awaitingPlus);
      }
    }
    if StartsWith(raw, "--- ") {
      var target := Strip(raw[4..]);
      if target == "/dev/null" || StartsWith(target, "a/") {
        awaitingPlus := true;
        return State(path, line, skipping, inHeader, awaitingPlus);
      }
    }
    var head := HunkStart(raw);
    if head.Some? {
      inHeader := false;
      line := head.value;
    }
    return State(path, line, skipping, inHeader, awaitingPlus);
  }

  lemma NextRequests(all: seq<Request>, done: seq<Request>, st: State, lines: seq<string>, skip: string -> bool)
    requires lines != [] && all == done + Requests(st, lines, skip)
    ensures all == done + Emit(st, lines[0]) + Requests(Step(st, lines[0], skip), lines[1..], skip)
  {
    hide Step, Emit;
  }

  /** The loop over the five variables: its findings are those of the line scanner on the requests in order. */
  method ScanDiff<F>(diff: string, scanLine: (string, int, string) -> seq<F>, skip: string -> bool)
    returns (findings: seq<F>)
    ensures findings == Scanned(Requests(START, SplitLines(PythonBreaks, diff), skip), scanLine)
  {
    hide SplitLines;
    findings := [];
    var st := START;
    var lines := SplitLines(PythonBreaks, diff);
    ghost var done: seq<Request> := [];
    ghost var all := Requests(START, lines, skip);
    assert lines[0..] == lines;
    for i := 0 to |lines|
      invariant all == done + Requests(st, lines[i..], skip)
      invariant findings == Scanned(done, scanLine)
    {
      hide HunkStart, Requests, HeaderStep, PlusStep;
      var raw := lines[i];
      NextRequests(all, done, st, lines[i..], skip);
      assert lines[i..][1..] == lines[i + 1..];
      ScannedConcat(done, Emit(st, raw), scanLine);
      ghost var before := st;
      if StartsWith(raw, "diff --git") {
        st := State(None, 0, true, true, false);
      } else if st.inHeader {
        st := HeaderTurn(st, raw, skip);
      } else {
        var head := HunkStart(raw);
        if head.Some? {
          st := st.(line := head.value);
        } else if StartsWith(raw, "+") {
          if st.path.Some? && st.path.value != "" && !st.skipping {
            findings := findings + scanLine(st.path.value, st.line, raw[1..]);
          }
          st := st.(line := st.line + 1);
        } else if StartsWith(raw, " ") {
          st := st.(line := st.line + 1);
        }
      }
      assert st == Step(before, raw, skip);
      done := done + Emit(before, raw);
    }
    assert lines[|lines|..] == [] && done + [] == done;
  }
}
