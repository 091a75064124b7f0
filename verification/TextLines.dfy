/**
 How Python cuts text into lines: at newlines when it reads a file, and at more characters in
 `str.splitlines`. A carriage return and a line feed behind it are one break.
 */
module TextLines {

  datatype Breaks = Newlines | PythonBreaks

  predicate IsBreak(b: Breaks, c: char) {
    || c == '\n' || c == '\r'
    || (b == PythonBreaks &&
        ('\n' <= c <= '\r' || '\U{1C}' <= c <= '\U{1E}' || c == '\U{85}' || c == '\U{2028}' || c == '\U{2029}'))
  }

  predicate Unbroken(b: Breaks, s: string) {
    forall c | c in s :: !IsBreak(b, c)
  }

  function LineLength(b: Breaks, s: string): (n: nat)
    ensures n <= |s| && (n < |s| ==> IsBreak(b, s[n])) && Unbroken(b, s[..n])
  {
    if s == "" || IsBreak(b, s[0]) then 0
    else
      assert s[..1 + LineLength(b, s[1..])] == [s[0]] + s[1..][..LineLength(b, s[1..])];
      1 + LineLength(b, s[1..])
  }

  function SplitLines(b: Breaks, s: string): (lines: seq<string>)
    ensures forall l | l in lines :: Unbroken(b, l)
    decreases |s|
  {
    if s == "" then []
    else
      var n := LineLength(b, s);
      if n == |s| then assert s[..n] == s; [s]
      else [s[..n]] + SplitLines(b, AfterBreak(s[n..]))
  }

  function AfterBreak(s: string): (r: string)
    requires s != ""
    ensures |r| < |s|
  {
    if s[0] == '\r' && |s| > 1 && s[1] == '\n' then s[2..] else s[1..]
  }

  lemma {:induction false} LineLengthIs(b: Breaks, t: string, rest: string)
    requires Unbroken(b, t) && rest != "" && IsBreak(b, rest[0])
    ensures LineLength(b, t + rest) == |t|
  {
    if t == "" {
      assert t + rest == rest;
    } else {
      assert t[0] in t;
      assert (t + rest)[1..] == t[1..] + rest;
      LineLengthIs(b, t[1..], rest);
    }
  }

  // ---------------------------------------------------------------------------------------------
  // A line of a file, and what Python makes of it.
  // ---------------------------------------------------------------------------------------------

  function Eol(crlf: bool): string {
    if crlf then "\r\n" else "\n"
  }

  // The pieces Python takes a line for, when the file ends the line with `Eol(crlf)`.
  function Pieces(b: Breaks, line: string, crlf: bool): seq<string> {
    SplitLines(b, line + Eol(crlf))
  }

  // The line up to its first break, and the pieces behind that.
  function First(b: Breaks, line: string): (f: string)
    ensures Unbroken(b, f) && |f| <= |line| && f <= line
    ensures Unbroken(b, line) ==> f == line
    ensures f == line ==> Unbroken(b, line)
  {
    var n := LineLength(b, line);
    assert n < |line| ==> line[n] in line;
    line[..n]
  }

  function Tail(b: Breaks, line: string, crlf: bool): seq<string> {
    var ps := Pieces(b, line, crlf);
    if ps == [] then [] else ps[1..]
  }

  lemma SplitUnfolds(b: Breaks, f: string, rest: string)
    requires Unbroken(b, f) && rest != "" && IsBreak(b, rest[0])
    ensures SplitLines(b, f + rest) == [f] + SplitLines(b, AfterBreak(rest))
  {
    hide LineLength;
    LineLengthIs(b, f, rest);
    assert (f + rest)[..|f|] == f && (f + rest)[|f|..] == rest;
  }

  // What a line leaves from its first break on.
  function Rest(b: Breaks, line: string): (r: string)
    ensures line == First(b, line) + r && (r != "" ==> IsBreak(b, r[0]))
    ensures r == "" <==> Unbroken(b, line)
  {
    line[|First(b, line)|..]
  }

  // A line feed behind the end of the line ends its last piece.
  lemma {:induction false} SplitAtEol(b: Breaks, a: string, rest: string)
    ensures SplitLines(b, a + ("\n" + rest)) == SplitLines(b, a + "\n") + SplitLines(b, rest)
    decreases |a|
  {
    hide SplitLines, First, Rest;
    var f, g := First(b, a), Rest(b, a);
    assert a + "\n" == f + (g + "\n") && a + ("\n" + rest) == f + (g + ("\n" + rest));
    SplitUnfolds(b, f, g + "\n");
    SplitUnfolds(b, f, g + ("\n" + rest));
    if g == "" || g == "\r" {
      SplitNothing(b);
      assert AfterBreak(g + "\n") == "" && AfterBreak(g + ("\n" + rest)) == rest;
    } else {
      var h := AfterBreak(g);
      assert AfterBreak(g + "\n") == h + "\n" && AfterBreak(g + ("\n" + rest)) == h + ("\n" + rest);
      SplitAtEol(b, h, rest);
    }
  }

  lemma SplitNothing(b: Breaks)
    ensures SplitLines(b, "") == []
  {
  }

  lemma SplitFirstLine(b: Breaks, line: string, crlf: bool, rest: string)
    ensures SplitLines(b, line + (Eol(crlf) + rest)) == Pieces(b, line, crlf) + SplitLines(b, rest)
  {
    hide SplitLines;
    var a := if crlf then line + "\r" else line;
    SplitAtEol(b, a, rest);
    assert line + (Eol(crlf) + rest) == a + ("\n" + rest) && line + Eol(crlf) == a + "\n";
  }

  lemma PiecesAre(b: Breaks, line: string, crlf: bool)
    ensures Pieces(b, line, crlf) == [First(b, line)] + SplitLines(b, AfterBreak(Rest(b, line) + Eol(crlf)))
    ensures Tail(b, line, crlf) == SplitLines(b, AfterBreak(Rest(b, line) + Eol(crlf)))
    ensures Unbroken(b, line) ==> Tail(b, line, crlf) == []
  {
    hide SplitLines, First, Rest;
    var f, g := First(b, line), Rest(b, line);
    assert line + Eol(crlf) == f + (g + Eol(crlf));
    SplitUnfolds(b, f, g + Eol(crlf));
    SplitNothing(b);
  }

  // An unbroken beginning of a line belongs to its first piece.
  lemma PrefixPieces(b: Breaks, a: string, line: string, crlf: bool)
    requires Unbroken(b, a)
    ensures First(b, a + line) == a + First(b, line) && Tail(b, a + line, crlf) == Tail(b, line, crlf)
  {
    hide SplitLines, First, Rest, Tail, Pieces;
    PiecesAre(b, line, crlf);
    PiecesAre(b, a + line, crlf);
    RestOfPrefix(b, a, line);
  }

  lemma RestOfPrefix(b: Breaks, a: string, line: string)
    requires Unbroken(b, a)
    ensures First(b, a + line) == a + First(b, line) && Rest(b, a + line) == Rest(b, line)
  {
    hide First;
    FirstOfPrefix(b, a, line);
    var n := |First(b, line)|;
    assert (a + line)[|a| + n..] == line[n..];
  }

  lemma FirstOfPrefix(b: Breaks, a: string, line: string)
    requires Unbroken(b, a)
    ensures First(b, a + line) == a + First(b, line)
  {
    hide LineLength;
    var f := First(b, line);
    if |f| < |line| {
      assert a + line == (a + f) + line[|f|..];
      LineLengthIs(b, a + f, line[|f|..]);
      assert (a + line)[..|a + f|] == a + f;
    } else {
      assert Unbroken(b, a + line);
    }
  }

  // A break that is not a carriage return leaves a piece behind it.
  lemma BrokenHasTail(b: Breaks, line: string, crlf: bool)
    requires !Unbroken(b, line) && '\r' !in line
    ensures Tail(b, line, crlf) != []
  {
    hide First, Rest, Tail;
    PiecesAre(b, line, crlf);
    var g := Rest(b, line);
    assert g[0] in line;
    assert AfterBreak(g + Eol(crlf)) != "";
  }
}
