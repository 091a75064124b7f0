/**
 The few operations of Go's `strings` package that the agent's value functions rely on.
 */
module GoStrings {

  // unicode.IsSpace
  predicate IsSpace(c: char) {
    || '\t' <= c <= '\r' || c == ' ' || c == '\U{85}' || c == '\U{A0}' || c == '\U{1680}'
    || '\U{2000}' <= c <= '\U{200A}' || c == '\U{2028}' || c == '\U{2029}' || c == '\U{202F}'
    || c == '\U{205F}' || c == '\U{3000}'
  }

  function TrimLeft(s: string): string {
    if s != [] && IsSpace(s[0]) then TrimLeft(s[1..]) else s
  }

  function TrimRight(s: string): string {
    if s != [] && IsSpace(s[|s| - 1]) then TrimRight(s[..|s| - 1]) else s
  }

  function TrimSpace(s: string): string {
    TrimRight(TrimLeft(s))
  }

  /** Trimming takes the white space off both ends and nothing else. */
  lemma TrimSpaceMeans(s: string) returns (a: string, b: string)
    ensures s == a + TrimSpace(s) + b && forall c | c in a + b :: IsSpace(c)
    ensures TrimSpace(s) != "" ==> !IsSpace(TrimSpace(s)[0]) && !IsSpace(TrimSpace(s)[|TrimSpace(s)| - 1])
  {
    a := TrimLeftMeans(s);
    b := TrimRightMeans(TrimLeft(s));
    assert TrimSpace(s) != "" ==> TrimSpace(s)[0] == TrimLeft(s)[0];
  }

  lemma {:induction false} TrimLeftMeans(s: string) returns (a: string)
    ensures s == a + TrimLeft(s) && forall c | c in a :: IsSpace(c)
    ensures TrimLeft(s) != "" ==> !IsSpace(TrimLeft(s)[0])
  {
    if s != [] && IsSpace(s[0]) {
      var more := TrimLeftMeans(s[1..]);
      a := [s[0]] + more;
    } else {
      a := "";
    }
  }

  lemma {:induction false} TrimRightMeans(s: string) returns (b: string)
    ensures s == TrimRight(s) + b && forall c | c in b :: IsSpace(c)
    ensures TrimRight(s) != "" ==> !IsSpace(TrimRight(s)[|TrimRight(s)| - 1])
  {
    if s != [] && IsSpace(s[|s| - 1]) {
      var more := TrimRightMeans(s[..|s| - 1]);
      b := more + [s[|s| - 1]];
    } else {
      b := "";
    }
  }

  lemma TrimSpaceKeeps(s: string)
    requires s != [] ==> !IsSpace(s[0]) && !IsSpace(s[|s| - 1])
    ensures TrimSpace(s) == s
  {
  }

  // strings.Join with a one-character separator
  function Join(parts: seq<string>, sep: char): string {
    if parts == [] then "" else if |parts| == 1 then parts[0] else parts[0] + [sep] + Join(parts[1..], sep)
  }

  // strings.Cut around a separator that occurs
  function Cut(s: string, sep: char): (r: (string, string))
    requires sep in s
    ensures s == r.0 + [sep] + r.1 && sep !in r.0
  {
    if s[0] == sep then ("", s[1..])
    else
      var (a, b) := Cut(s[1..], sep);
      ([s[0]] + a, b)
  }

  lemma FirstPartEqual(a: string, x: string, b: string, y: string, sep: char)
    requires a + [sep] + x == b + [sep] + y && sep !in a && sep !in b
    ensures a == b && x == y
  {
    var s := a + [sep] + x;
    assert s[|a|] == sep && s[|b|] == sep;
    assert a == s[..|a|] && b == s[..|b|];
    assert x == s[|a| + 1..] && y == s[|b| + 1..];
  }

  // strings.Split on a one-character separator
  function Split(s: string, sep: char): (parts: seq<string>)
    ensures |parts| >= 1 && forall p | p in parts :: sep !in p
    decreases |s|
  {
    if sep !in s then [s] else [Cut(s, sep).0] + Split(Cut(s, sep).1, sep)
  }

  lemma {:induction false} JoinOfSplit(s: string, sep: char)
    ensures Join(Split(s, sep), sep) == s
    decreases |s|
  {
    if sep in s {
      JoinOfSplit(Cut(s, sep).1, sep);
      assert Split(s, sep)[1..] == Split(Cut(s, sep).1, sep);
    }
  }

  lemma {:induction false} SplitOfJoin(parts: seq<string>, sep: char)
    requires parts != [] && forall p | p in parts :: sep !in p
    ensures Split(Join(parts, sep), sep) == parts
  {
    assert parts[0] in parts;
    if |parts| > 1 {
      var s, rest := Join(parts, sep), Join(parts[1..], sep);
      assert s == parts[0] + [sep] + rest && s[|parts[0]|] == sep;
      FirstPartEqual(parts[0], rest, Cut(s, sep).0, Cut(s, sep).1, sep);
      SplitOfJoin(parts[1..], sep);
    }
  }

  lemma {:induction false} SplitAppend(a: string, b: string, sep: char)
    ensures Split(a + [sep] + b, sep) == Split(a, sep) + Split(b, sep)
    decreases |a|
  {
    var s := a + [sep] + b;
    assert s[|a|] == sep;
    var (h, t) := Cut(s, sep);
    if sep in a {
      var (ah, at) := Cut(a, sep);
      assert s == ah + [sep] + (at + [sep] + b);
      FirstPartEqual(h, t, ah, at + [sep] + b, sep);
      SplitAppend(at, b, sep);
    } else {
      FirstPartEqual(h, t, a, b, sep);
    }
  }

  lemma {:induction false} JoinAppend(a: seq<string>, b: seq<string>, sep: char)
    requires a != [] && b != []
    ensures Join(a + b, sep) == Join(a, sep) + [sep] + Join(b, sep)
  {
    if |a| == 1 {
      assert (a + b)[1..] == b;
    } else {
      assert (a + b)[1..] == a[1..] + b;
      JoinAppend(a[1..], b, sep);
    }
  }

  lemma LastPartEqual(a: string, x: string, b: string, y: string, sep: char)
    requires a + [sep] + x == b + [sep] + y && sep !in x && sep !in y
    ensures a == b && x == y
  {
    var s := a + [sep] + x;
    assert forall i | |a| < i < |s| :: s[i] == x[i - |a| - 1];
    assert forall i | |b| < i < |s| :: s[i] == y[i - |b| - 1];
    assert s[|a|] == sep && s[|b|] == sep;
    assert a == s[..|a|] && b == s[..|b|];
    assert x == s[|a| + 1..] && y == s[|b| + 1..];
  }

  // A join has only one split into as many parts of which all but the first are free of the separator.
  lemma {:induction false} JoinTailInjective(p: seq<string>, q: seq<string>, sep: char)
    requires |p| == |q| >= 1 && Join(p, sep) == Join(q, sep)
    requires forall i | 1 <= i < |p| :: sep !in p[i] && sep !in q[i]
    ensures p == q
  {
    var n := |p| - 1;
    if n > 0 {
      assert p == p[..n] + [p[n]] && q == q[..n] + [q[n]];
      JoinAppend(p[..n], [p[n]], sep);
      JoinAppend(q[..n], [q[n]], sep);
      LastPartEqual(Join(p[..n], sep), p[n], Join(q[..n], sep), q[n], sep);
      JoinTailInjective(p[..n], q[..n], sep);
    }
  }
}
