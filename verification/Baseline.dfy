/**
 The leak check's baseline file and the pass/fail ratchet around it.

 A baseline lists the identifiers that are already published, one key of three tab-separated columns to a
 line, below a header of comment lines. A full scan may rewrite it; every other scan fails on a credential
 and on any key that is not listed.
 */
module Baseline {
  import opened GoStrings
  import opened Options
  import opened TextLines
  import D = DiffScan

  datatype Key = Key(path: string, kind: string, token: string)

  datatype Loaded = Keys(keys: set<Key>) | BadLine

  // ---------------------------------------------------------------------------------------------
  // The file.
  // ---------------------------------------------------------------------------------------------

  predicate OneLine(s: string) {
    Unbroken(Newlines, s)
  }

  // A line that holds no key: blank, or a comment.
  predicate Ignored(line: string) {
    D.Strip(line) == "" || D.StartsWith(D.StripLeft(line), "#")
  }

  // White space up to place i, and there the end of the line or a number sign.
  predicate NothingUpTo(line: string, i: nat) {
    i <= |line| && (forall j | 0 <= j < i :: D.IsSpace(line[j])) && (i == |line| || line[i] == '#')
  }

  /** A line is ignored exactly when it is white space up to its end or up to a number sign. */
  lemma IgnoredMeans(line: string)
    ensures Ignored(line) <==> exists i: nat :: NothingUpTo(line, i)
  {
    var a := D.StripLeftMeans(line);
    var n, rest := |a|, D.StripLeft(line);
    var b := D.StripRightMeans(rest);
    assert forall j | 0 <= j < n :: line[j] == a[j] && a[j] in a;
    assert rest != "" ==> line[n] == rest[0] && !D.IsSpace(line[n]);
    if Ignored(line) {
      assert b != "" ==> b[0] in b;
      assert NothingUpTo(line, n);
    }
    if i: nat :| NothingUpTo(line, i) {
      assert !D.IsSpace('#') && forall j | 0 <= j < n :: D.IsSpace(line[j]);
      if rest != "" {
        assert i == n && rest[..1] == "#";
      }
    }
  }

  function LoadLines(lines: seq<string>): Loaded {
    if lines == [] then Keys({})
    else
      var last := lines[|lines| - 1];
      match LoadLines(lines[..|lines| - 1])
      case BadLine => BadLine
      case Keys(ks) =>
        if Ignored(last) then Keys(ks)
        else
          var p := Split(last, '\t');
          if |p| != 3 then BadLine else Keys(ks + {Key(p[0], p[1], p[2])})
  }

  // The file is read line by line with universal newlines, the newlines stripped.
  function Load(text: string): Loaded {
    LoadLines(SplitLines(Newlines, text))
  }

  /** The loop that fills the set; a malformed line ends it. */
  method LoadBaseline(text: string) returns (r: Loaded)
    ensures r == Load(text)
  {
    hide Ignored, Split;
    var lines := SplitLines(Newlines, text);
    var keys: set<Key> := {};
    assert lines[..0] == [];
    for i := 0 to |lines|
      invariant LoadLines(lines[..i]) == Keys(keys)
    {
      var line := lines[i];
      assert lines[..i + 1][..i] == lines[..i];
      if Ignored(line) {
        continue;
      }
      var parts := Split(line, '\t');
      if |parts| != 3 {
        BadStaysBad(lines, i + 1);
        return BadLine;
      }
      keys := keys + {Key(parts[0], parts[1], parts[2])};
    }
    assert lines[..|lines|] == lines;
    return Keys(keys);
  }

  /** What a baseline holds: it cannot be read exactly when a line that is not ignored has not three columns, and
      otherwise its keys are exactly the columns of those lines. */
  lemma {:induction false} LoadMeans(lines: seq<string>, k: Key)
    ensures LoadLines(lines) == BadLine <==> exists l :: l in lines && !Ignored(l) && |Split(l, '\t')| != 3
    ensures LoadLines(lines).Keys? ==>
              (k in LoadLines(lines).keys <==>
               exists l :: l in lines && !Ignored(l) && l == LineOf(k) && Split(l, '\t') == [k.path, k.kind, k.token])
  {
    hide Ignored, Split;
    if lines != [] {
      var init, last := lines[..|lines| - 1], lines[|lines| - 1];
      assert lines == init + [last];
      LoadMeans(init, k);
      assert forall l :: l in lines <==> l in init || l == last;
      var p := Split(last, '\t');
      JoinOfSplit(last, '\t');
      if |p| == 3 { assert p == [p[0], p[1], p[2]] && last == LineOf(Key(p[0], p[1], p[2])); }
    }
  }

  lemma {:induction false} BadStaysBad(lines: seq<string>, i: nat)
    requires i <= |lines| && LoadLines(lines[..i]) == BadLine
    ensures LoadLines(lines) == BadLine
    decreases |lines| - i
  {
    if i < |lines| {
      assert lines[..i + 1][..i] == lines[..i];
      BadStaysBad(lines, i + 1);
    } else {
      assert lines[..i] == lines;
    }
  }

  function LineOf(k: Key): string {
    Join([k.path, k.kind, k.token], '\t')
  }

  function Terminated(lines: seq<string>): string {
    if lines == [] then "" else lines[0] + ("\n" + Terminated(lines[1..]))
  }

  function LinesOf(keys: seq<Key>): seq<string> {
    seq(|keys|, i requires 0 <= i < |keys| => LineOf(keys[i]))
  }

  // The header and then the keys in the order given.
  function Write(header: seq<string>, keys: seq<Key>): string {
    Terminated(header + LinesOf(keys))
  }

  // ---------------------------------------------------------------------------------------------
  // Round trip.
  // ---------------------------------------------------------------------------------------------

  // A key that survives the file: no tab or newline in it, and its line is neither blank nor a comment.
  predicate WellFormed(k: Key) {
    && (forall s | s in [k.path, k.kind, k.token] :: '\t' !in s && OneLine(s))
    && !Ignored(LineOf(k))
  }

  predicate CommentLine(l: string) {
    OneLine(l) && Ignored(l)
  }

  lemma {:induction false} LinesOfTerminated(lines: seq<string>)
    requires forall l | l in lines :: OneLine(l)
    ensures SplitLines(Newlines, Terminated(lines)) == lines
  {
    hide SplitLines;
    if lines == [] {
      SplitNothing(Newlines);
    } else {
      assert lines[0] in lines;
      SplitUnfolds(Newlines, lines[0], "\n" + Terminated(lines[1..]));
      assert AfterBreak("\n" + Terminated(lines[1..])) == Terminated(lines[1..]);
      LinesOfTerminated(lines[1..]);
    }
  }

  lemma {:induction false} LoadHeader(header: seq<string>)
    requires forall l | l in header :: CommentLine(l)
    ensures LoadLines(header) == Keys({})
  {
    hide Ignored, Split;
    if header != [] {
      assert header[|header| - 1] in header;
      LoadHeader(header[..|header| - 1]);
    }
  }

  lemma {:induction false} LoadKeys(header: seq<string>, keys: seq<Key>)
    requires forall l | l in header :: CommentLine(l)
    requires forall k | k in keys :: WellFormed(k)
    ensures LoadLines(header + LinesOf(keys)) == Keys(set k | k in keys)
    decreases |keys|
  {
    hide Ignored, Split, Join;
    if keys == [] {
      LoadHeader(header);
      assert header + LinesOf(keys) == header;
    } else {
      var n := |keys| - 1;
      var init, k := keys[..n], keys[n];
      assert k in keys && WellFormed(k);
      var lines := header + LinesOf(keys);
      assert lines[..|lines| - 1] == header + LinesOf(init);
      LoadKeys(header, init);
      SplitOfJoin([k.path, k.kind, k.token], '\t');
      assert keys == init + [k];
    }
  }

  lemma {:induction false} LoadedKeysAreWellFormed(lines: seq<string>)
    requires forall l | l in lines :: OneLine(l)
    ensures LoadLines(lines).Keys? ==> forall k | k in LoadLines(lines).keys :: WellFormed(k)
  {
    hide Ignored, Split;
    if lines != [] {
      var last := lines[|lines| - 1];
      assert last in lines;
      LoadedKeysAreWellFormed(lines[..|lines| - 1]);
      var p := Split(last, '\t');
      if |p| == 3 && !Ignored(last) { LineKeyIsWellFormed(last); }
    }
  }

  lemma LineKeyIsWellFormed(line: string)
    requires OneLine(line) && !Ignored(line) && |Split(line, '\t')| == 3
    ensures var p := Split(line, '\t'); WellFormed(Key(p[0], p[1], p[2]))
  {
    hide Ignored;
    var p := Split(line, '\t');
    JoinOfSplit(line, '\t');
    assert p == [p[0], p[1], p[2]];
    forall s | s in p ensures OneLine(s) { PartInWhole(p, s, '\t'); }
  }

  lemma {:induction false} PartInWhole(parts: seq<string>, s: string, sep: char)
    requires s in parts
    ensures forall c | c in s :: c in Join(parts, sep)
  {
    if parts[0] != s { PartInWhole(parts[1..], s, sep); }
  }

  /** Loading what was written, in any order of the keys, gives the same set if and only if every key is well
      formed. */
  lemma BaselineRoundTripIff(header: seq<string>, keys: seq<Key>)
    requires forall l | l in header :: CommentLine(l)
    ensures Load(Write(header, keys)) == Keys(set k | k in keys) <==> forall k | k in keys :: WellFormed(k)
  {
    hide LoadLines, WellFormed, CommentLine, SplitLines;
    if forall k | k in keys :: WellFormed(k) {
      var lines := header + LinesOf(keys);
      forall l | l in lines ensures OneLine(l) {
        if l !in header {
          var i :| 0 <= i < |keys| && l == LineOf(keys[i]);
          assert keys[i] in keys;
          LineOfIsOneLine(keys[i]);
        } else {
          CommentIsOneLine(l);
        }
      }
      LinesOfTerminated(lines);
      LoadKeys(header, keys);
    }
    LoadedKeysAreWellFormed(SplitLines(Newlines, Write(header, keys)));
  }

  lemma CommentIsOneLine(l: string)
    requires CommentLine(l)
    ensures OneLine(l)
  {
  }

  lemma LineOfIsOneLine(k: Key)
    requires WellFormed(k)
    ensures OneLine(LineOf(k))
  {
    var p := [k.path, k.kind, k.token];
    assert k.path in p && k.kind in p && k.token in p;
    assert p[1..] == [k.kind, k.token] && p[1..][1..] == [k.token];
    assert Join(p[1..], '\t') == k.kind + ['\t'] + Join(p[1..][1..], '\t');
  }

  // ---------------------------------------------------------------------------------------------
  // The ratchet.
  // ---------------------------------------------------------------------------------------------

  datatype Finding = Finding(path: string, line: int, kind: string, token: string)

  datatype Mode = FullTree | Staged | CommitRange | Paths

  predicate IsCredential(f: Finding) {
    f.kind == "credential"
  }

  function KeyOf(f: Finding): Key {
    Key(f.path, f.kind, f.token)
  }

  function InternalKeys(fs: seq<Finding>): set<Key> {
    set f | f in fs && !IsCredential(f) :: KeyOf(f)
  }

  predicate HasCredential(fs: seq<Finding>) {
    exists f :: f in fs && IsCredential(f)
  }

  // What the baseline file holds; a missing file is an empty baseline.
  function LoadFile(file: Option<string>): Loaded {
    if file.None? then Keys({}) else Load(file.value)
  }

  // The exit code of a scan and the baseline file it leaves.
  datatype Outcome = Outcome(exit: int, file: Option<string>)

  function Check(mode: Mode, update: bool, noBaseline: bool, fs: seq<Finding>, file: Option<string>,
                 header: seq<string>, sorted: set<Key> -> seq<Key>): Outcome
  {
    if update then
      if mode != FullTree then Outcome(2, file)
      else if HasCredential(fs) then Outcome(1, file)
      else Outcome(0, Some(Write(header, sorted(InternalKeys(fs)))))
    else
      match if noBaseline then Keys({}) else LoadFile(file)
      case BadLine => Outcome(2, file)
      case Keys(listed) =>
        if HasCredential(fs) || exists k :: k in InternalKeys(fs) && k !in listed then Outcome(1, file)
        else Outcome(0, file)
  }

  /** A scan without update passes exactly when every finding is no credential and its path, kind and token are
      together on a line of the baseline; it fails with 2 for a baseline that cannot be read and with 1
      otherwise. An update passes exactly on a full tree without a credential, and then lists exactly the
      path, kind and token of every finding. */
  lemma ExitCodes(mode: Mode, update: bool, noBaseline: bool, fs: seq<Finding>, file: Option<string>,
                  header: seq<string>, sorted: set<Key> -> seq<Key>)
    ensures var r := Check(mode, update, noBaseline, fs, file, header, sorted);
            var clean := forall f | f in fs :: f.kind != "credential";
            if update then
              && r.exit == (if mode != FullTree then 2 else if clean then 0 else 1)
              && (r.exit == 0 ==>
                    r.file == Some(Write(header, sorted(set f | f in fs :: Key(f.path, f.kind, f.token)))))
            else
              var listed := if noBaseline || file == None then Keys({}) else Load(file.value);
              r.exit == if listed.BadLine? then 2
                        else if clean && forall f | f in fs :: Key(f.path, f.kind, f.token) in listed.keys then 0
                        else 1
  {
    if forall f | f in fs :: f.kind != "credential" {
      assert InternalKeys(fs) == set f | f in fs :: Key(f.path, f.kind, f.token);
      forall f | f in fs ensures KeyOf(f) in InternalKeys(fs) { }
    } else {
      var f :| f in fs && f.kind == "credential";
      assert IsCredential(f);
    }
  }

  /** In every mode, with every baseline, a credential makes the check fail; so does any key the baseline does
      not list; an update works on a full tree only; and only an update that worked changes the file. */
  lemma RatchetNeverOpens(mode: Mode, update: bool, noBaseline: bool, fs: seq<Finding>, file: Option<string>,
                          header: seq<string>, sorted: set<Key> -> seq<Key>)
    ensures HasCredential(fs) ==> Check(mode, update, noBaseline, fs, file, header, sorted).exit != 0
    ensures update ==>
              var r := Check(mode, update, noBaseline, fs, file, header, sorted);
              && (r.exit == 0 <==> mode == FullTree && !HasCredential(fs))
              && (r.exit != 0 ==> r.file == file)
    ensures !update ==>
              var r := Check(mode, update, noBaseline, fs, file, header, sorted);
              && r.file == file
              && (r.exit == 0 <==>
                    && !HasCredential(fs)
                    && (noBaseline || LoadFile(file).Keys?)
                    && InternalKeys(fs) <= (if noBaseline then {} else LoadFile(file).keys))
  {
  }

  /** After a full scan has rewritten the baseline, the same findings pass if and only if all their keys are
      well formed. */
  lemma RescanAfterUpdateIff(noBaseline: bool, fs: seq<Finding>, file: Option<string>,
                             header: seq<string>, sorted: set<Key> -> seq<Key>)
    requires forall l | l in header :: CommentLine(l)
    requires forall ks: set<Key> :: (set k | k in sorted(ks)) == ks
    requires !HasCredential(fs)
    ensures var updated := Check(FullTree, true, noBaseline, fs, file, header, sorted);
            && updated.exit == 0
            && (Check(FullTree, false, false, fs, updated.file, header, sorted).exit == 0 <==>
                  forall k | k in InternalKeys(fs) :: WellFormed(k))
  {
    hide WellFormed, Load, Write, IsCredential;
    var updated := Check(FullTree, true, noBaseline, fs, file, header, sorted);
    var listing := sorted(InternalKeys(fs));
    var ks := set k | k in listing;
    assert ks == InternalKeys(fs) && forall k :: k in listing <==> k in ks;
    BaselineRoundTripIff(header, listing);
    var loaded := Load(updated.file.value);
    LoadGivesWellFormed(updated.file.value);
    if Check(FullTree, false, false, fs, updated.file, header, sorted).exit == 0 {
      assert loaded.Keys? && InternalKeys(fs) <= loaded.keys;
    }
  }

  lemma LoadGivesWellFormed(text: string)
    ensures Load(text).Keys? ==> forall k | k in Load(text).keys :: WellFormed(k)
  {
    LoadedKeysAreWellFormed(SplitLines(Newlines, text));
  }
}
