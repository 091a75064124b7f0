/**
 Git diffs: files made of names, extended headers and an edit script over whole files, the lines git shows
 for them, and what the added lines of a diff are.
 */
module GitDiff {
  import opened Decimals
  import opened TextLines
  import opened DiffScan

  // ---------------------------------------------------------------------------------------------
  // Git diffs, rendered.
  // ---------------------------------------------------------------------------------------------

  // How git shows a name: plainly, with a tab behind it where it holds a space, or quoted with escapes.
  datatype Name = Plain(path: string, tab: bool) | Quoted(path: string, shown: string)

  datatype Side = Absent | Present(name: Name)

  datatype Line = Keep(text: string) | Delete(text: string) | Add(text: string) | NoNewline

  // An edit script over a whole file: runs of unchanged lines that are not shown, and hunks.
  datatype Segment = Gap(hidden: seq<string>) | Hunk(lines: seq<Line>, heading: string)

  datatype FileDiff = FileDiff(title: string, extended: seq<string>, source: Side, target: Side, script: seq<Segment>)

  // `before` lines come before the range. An empty range is numbered by the line before it.
  function RangeText(before: nat, count: nat): string {
    Decimal(if count == 0 then before else before + 1) + (if count == 1 then "" else "," + Decimal(count))
  }

  function HunkHeader(oldBefore: nat, oldCount: nat, newBefore: nat, newCount: nat, heading: string): string {
    "@@ -" + RangeText(oldBefore, oldCount) + (" +" + (RangeText(newBefore, newCount) + (" @@" + heading)))
  }

  function RenderLine(l: Line): string {
    match l
    case Keep(t) => " " + t
    case Delete(t) => "-" + t
    case Add(t) => "+" + t
    case NoNewline => "\\ No newline at end of file"
  }

  function RenderLines(ls: seq<Line>): seq<string> {
    if ls == [] then [] else [RenderLine(ls[0])] + RenderLines(ls[1..])
  }

  // How many lines of the old and the new file a hunk covers.
  function OldCount(ls: seq<Line>): nat {
    if ls == [] then 0 else (if ls[0].Keep? || ls[0].Delete? then 1 else 0) + OldCount(ls[1..])
  }

  function NewCount(ls: seq<Line>): nat {
    if ls == [] then 0 else (if ls[0].Keep? || ls[0].Add? then 1 else 0) + NewCount(ls[1..])
  }

  function RenderScript(script: seq<Segment>, oldBefore: nat, newBefore: nat): seq<string> {
    if script == [] then []
    else
      match script[0]
      case Gap(ls) => RenderScript(script[1..], oldBefore + |ls|, newBefore + |ls|)
      case Hunk(ls, heading) =>
        [HunkHeader(oldBefore, OldCount(ls), newBefore, NewCount(ls), heading)] + RenderLines(ls)
        + RenderScript(script[1..], oldBefore + OldCount(ls), newBefore + NewCount(ls))
  }

  function Label(prefix: string, side: Side): string {
    match side
    case Absent => "/dev/null"
    case Present(Plain(path, tab)) => prefix + path + (if tab then "\t" else "")
    case Present(Quoted(_, shown)) => "\"" + prefix + shown + "\""
  }

  predicate HasHunk(script: seq<Segment>) {
    exists seg :: seg in script && seg.Hunk?
  }

  // A rename, a mode change, a binary or an empty file has no hunk and then no ---/+++ pair.
  function RenderFile(fd: FileDiff): seq<string> {
    ["diff --git" + fd.title] + fd.extended
    + (if HasHunk(fd.script) then ["--- " + Label("a/", fd.source), "+++ " + Label("b/", fd.target)] else [])
    + RenderScript(fd.script, 0, 0)
  }

  function RenderFiles(fds: seq<FileDiff>): seq<string> {
    if fds == [] then [] else RenderFile(fds[0]) + RenderFiles(fds[1..])
  }

  // Lines as text, each ended by \n or by \r\n.
  function Text(lines: seq<string>, crlf: seq<bool>): string
    requires |lines| == |crlf|
  {
    if lines == [] then "" else lines[0] + (Eol(crlf[0]) + Text(lines[1..], crlf[1..]))
  }

  // ---------------------------------------------------------------------------------------------
  // What the script means.
  // ---------------------------------------------------------------------------------------------

  function NewOfLines(ls: seq<Line>): seq<string> {
    if ls == [] then []
    else (if ls[0].Keep? || ls[0].Add? then [ls[0].text] else []) + NewOfLines(ls[1..])
  }

  // The new file.
  function NewFile(script: seq<Segment>): seq<string> {
    if script == [] then []
    else (match script[0] case Gap(ls) => ls case Hunk(ls, _) => NewOfLines(ls)) + NewFile(script[1..])
  }

  // The added lines with their numbers in the new file, `before` lines standing before them.
  function AddedInLines(ls: seq<Line>, before: nat): seq<(int, string)> {
    if ls == [] then []
    else if ls[0].Add? then [(before + 1, ls[0].text)] + AddedInLines(ls[1..], before + 1)
    else AddedInLines(ls[1..], if ls[0].Keep? then before + 1 else before)
  }

  function Added(script: seq<Segment>, before: nat): seq<(int, string)> {
    if script == [] then []
    else
      match script[0]
      case Gap(ls) => Added(script[1..], before + |ls|)
      case Hunk(ls, _) => AddedInLines(ls, before) + Added(script[1..], before + NewCount(ls))
  }

  function ForPath(path: string, added: seq<(int, string)>): seq<Request> {
    seq(|added|, i requires 0 <= i < |added| => Request(path, added[i].0, added[i].1))
  }

  // What the scan should hand to the line scanner for one file.
  function Expected(fd: FileDiff, skip: string -> bool): seq<Request> {
    if fd.target.Absent? || skip(fd.target.name.path) then [] else ForPath(fd.target.name.path, Added(fd.script, 0))
  }

  function ExpectedAll(fds: seq<FileDiff>, skip: string -> bool): seq<Request> {
    if fds == [] then [] else Expected(fds[0], skip) + ExpectedAll(fds[1..], skip)
  }

  lemma {:induction false} NewCountIs(ls: seq<Line>)
    ensures |NewOfLines(ls)| == NewCount(ls)
  {
    if ls != [] { NewCountIs(ls[1..]); }
  }

  // The text stands at that number in the lines that follow the first `before` ones.
  predicate Sits(lines: seq<string>, before: nat, added: (int, string)) {
    before < added.0 <= before + |lines| && lines[added.0 - before - 1] == added.1
  }

  lemma SitsInConcat(head: seq<string>, tail: seq<string>, before: nat, added: (int, string))
    ensures Sits(head, before, added) ==> Sits(head + tail, before, added)
    ensures Sits(tail, before + |head|, added) ==> Sits(head + tail, before, added)
  {
  }

  lemma {:induction false} AddedInLinesSits(ls: seq<Line>, before: nat, k: nat)
    requires k < |AddedInLines(ls, before)|
    ensures Sits(NewOfLines(ls), before, AddedInLines(ls, before)[k])
  {
    if ls != [] {
      var head := if ls[0].Keep? || ls[0].Add? then [ls[0].text] else [];
      SitsInConcat(head, NewOfLines(ls[1..]), before, AddedInLines(ls, before)[k]);
      if ls[0].Add? {
        if k > 0 { AddedInLinesSits(ls[1..], before + 1, k - 1); }
      } else {
        AddedInLinesSits(ls[1..], before + |head|, k);
      }
    }
  }

  /** The numbers are true: the text of every added line stands at its number in the new file. */
  lemma {:induction false} AddedSits(script: seq<Segment>, before: nat, k: nat)
    requires k < |Added(script, before)|
    ensures Sits(NewFile(script), before, Added(script, before)[k])
  {
    hide Sits;
    if script != [] {
      var rest := NewFile(script[1..]);
      match script[0]
      case Gap(ls) =>
        AddedSits(script[1..], before + |ls|, k);
        SitsInConcat(ls, rest, before, Added(script, before)[k]);
      case Hunk(ls, _) =>
        NewCountIs(ls);
        SitsInConcat(NewOfLines(ls), rest, before, Added(script, before)[k]);
        var here := AddedInLines(ls, before);
        if k < |here| { AddedInLinesSits(ls, before, k); }
        else { AddedSits(script[1..], before + NewCount(ls), k - |here|); }
    }
  }
}
