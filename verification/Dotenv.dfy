/**
 The dotenv reader of VCS deploys.

 `Entries` and `DecodeValue` say what the reader makes of a text, on the text that is left. `ParseDotenv`
 and `DecodeDotenvValue` are the index loops, proved to compute the same for every input. `Print` writes
 documents in the accepted format, with any comments, blank and malformed lines in between, and the round
 trip says that reading such a document gives back exactly its pairs, the last value of a key winning.
 */
module Dotenv {
  import GoStrings

  type Byte = b: int | 0 <= b < 256
  type Bytes = seq<Byte>

  const TAB: Byte := 9
  const NL: Byte := 10
  const CR: Byte := 13
  const SP: Byte := 32
  const DQ: Byte := 34   // "
  const HASH: Byte := 35
  const SQ: Byte := 39   // '
  const EQ: Byte := 61
  const BS: Byte := 92   // \
  const LN: Byte := 110  // n
  const LR: Byte := 114  // r
  const LT: Byte := 116  // t

  datatype Entry = Entry(key: Bytes, value: Bytes)

  // ---------------------------------------------------------------------------------------------
  // strings.TrimSpace on UTF-8 bytes, and the trims of the reader.
  // ---------------------------------------------------------------------------------------------

  predicate AsciiSpace(b: Byte) {
    9 <= b <= 13 || b == 32
  }

  // Whether three bytes encode one of U+1680, U+2000..U+200A, U+2028, U+2029, U+202F, U+205F, U+3000.
  predicate WideSpace(a: Byte, b: Byte, c: Byte) {
    || (a == 0xE1 && b == 0x9A && c == 0x80)
    || (a == 0xE2 && b == 0x80 && (0x80 <= c <= 0x8A || c == 0xA8 || c == 0xA9 || c == 0xAF))
    || (a == 0xE2 && b == 0x81 && c == 0x9F)
    || (a == 0xE3 && b == 0x80 && c == 0x80)
  }

  // The length of the white space rune at the start of s, or 0.
  function SpaceAtStart(s: Bytes): (n: nat)
    ensures n <= |s|
  {
    if s == [] then 0
    else if AsciiSpace(s[0]) then 1
    else if |s| >= 2 && s[0] == 0xC2 && (s[1] == 0x85 || s[1] == 0xA0) then 2
    else if |s| >= 3 && WideSpace(s[0], s[1], s[2]) then 3
    else 0
  }

  function SpaceAtEnd(s: Bytes): (n: nat)
    ensures n <= |s|
  {
    var k := |s|;
    if k == 0 then 0
    else if AsciiSpace(s[k - 1]) then 1
    else if k >= 2 && s[k - 2] == 0xC2 && (s[k - 1] == 0x85 || s[k - 1] == 0xA0) then 2
    else if k >= 3 && WideSpace(s[k - 3], s[k - 2], s[k - 1]) then 3
    else 0
  }

  function TrimStart(s: Bytes): Bytes
    decreases |s|
  {
    if SpaceAtStart(s) == 0 then s else TrimStart(s[SpaceAtStart(s)..])
  }

  function TrimEnd(s: Bytes): Bytes
    decreases |s|
  {
    if SpaceAtEnd(s) == 0 then s else TrimEnd(s[..|s| - SpaceAtEnd(s)])
  }

  function TrimSpace(s: Bytes): Bytes {
    TrimEnd(TrimStart(s))
  }

  // ---------------------------------------------------------------------------------------------
  // What is trimmed: unicode.IsSpace runes in UTF-8.
  // ---------------------------------------------------------------------------------------------

  function Utf8(c: char): Bytes {
    var k := c as int;
    if k < 0x80 then [k]
    else if k < 0x800 then [0xC0 + k / 0x40, 0x80 + k % 0x40]
    else if k < 0x1_0000 then [0xE0 + k / 0x1000, 0x80 + k / 0x40 % 0x40, 0x80 + k % 0x40]
    else [0xF0 + k / 0x4_0000, 0x80 + k / 0x1000 % 0x40, 0x80 + k / 0x40 % 0x40, 0x80 + k % 0x40]
  }

  function Utf8Text(s: string): Bytes {
    if s == "" then [] else Utf8(s[0]) + Utf8Text(s[1..])
  }

  predicate Spaces(s: string) {
    forall c | c in s :: GoStrings.IsSpace(c)
  }

  // No white space rune at either end.
  ghost predicate SolidEnds(s: Bytes) {
    forall c: char | GoStrings.IsSpace(c) ::
      !(Utf8(c) <= s) && !(|Utf8(c)| <= |s| && s[|s| - |Utf8(c)|..] == Utf8(c))
  }

  // The encodings of white space.
  lemma SpaceEncoding(c: char)
    requires GoStrings.IsSpace(c)
    ensures var u := Utf8(c);
            || (|u| == 1 && AsciiSpace(u[0]))
            || (|u| == 2 && u[0] == 0xC2 && (u[1] == 0x85 || u[1] == 0xA0))
            || (|u| == 3 && WideSpace(u[0], u[1], u[2]))
  {
  }

  // Every encoding the trim looks for is one of white space.
  lemma EncodedSpace(u: Bytes) returns (c: char)
    requires || (|u| == 1 && AsciiSpace(u[0]))
             || (|u| == 2 && u[0] == 0xC2 && (u[1] == 0x85 || u[1] == 0xA0))
             || (|u| == 3 && WideSpace(u[0], u[1], u[2]))
    ensures GoStrings.IsSpace(c) && Utf8(c) == u
  {
    if |u| == 1 {
      c := u[0] as char;
    } else if |u| == 2 {
      c := (u[1]) as char;
    } else {
      var x: int, y: int, z: int := u[0], u[1], u[2];
      var k := (x - 0xE0) * 0x1000 + (y - 0x80) * 0x40 + (z - 0x80);
      assert 0x1680 <= k <= 0x3000;
      c := k as char;
    }
  }

  lemma SpaceStarts(c: char, rest: Bytes)
    requires GoStrings.IsSpace(c)
    ensures SpaceAtStart(Utf8(c) + rest) == |Utf8(c)| && (Utf8(c) + rest)[|Utf8(c)|..] == rest
  {
    hide Utf8;
    SpaceEncoding(c);
  }

  lemma SpaceEnds(c: char, rest: Bytes)
    requires GoStrings.IsSpace(c)
    ensures SpaceAtEnd(rest + Utf8(c)) == |Utf8(c)| && (rest + Utf8(c))[..|rest|] == rest
  {
    hide Utf8;
    SpaceEncoding(c);
    var s, k := rest + Utf8(c), |rest + Utf8(c)|;
    assert forall i | 0 <= i < |Utf8(c)| :: s[|rest| + i] == Utf8(c)[i];
  }

  // The tests of the trim at either end are exact.
  lemma SolidIs(s: Bytes)
    ensures SolidEnds(s) <==> SpaceAtStart(s) == 0 && SpaceAtEnd(s) == 0
  {
    hide Utf8, SpaceAtStart, SpaceAtEnd, GoStrings.IsSpace;
    if SpaceAtStart(s) != 0 {
      var c := RuneAtStart(s);
      assert Utf8(c) <= s;
    }
    if SpaceAtEnd(s) != 0 {
      var c := RuneAtEnd(s);
      assert s[|s| - |Utf8(c)|..] == Utf8(c);
    }
    forall c: char | GoStrings.IsSpace(c)
      ensures Utf8(c) <= s ==> SpaceAtStart(s) != 0
      ensures |Utf8(c)| <= |s| && s[|s| - |Utf8(c)|..] == Utf8(c) ==> SpaceAtEnd(s) != 0
    {
      SpaceIsFound(s, c);
    }
  }

  lemma SpaceIsFound(s: Bytes, c: char)
    requires GoStrings.IsSpace(c)
    ensures Utf8(c) <= s ==> SpaceAtStart(s) != 0
    ensures |Utf8(c)| <= |s| && s[|s| - |Utf8(c)|..] == Utf8(c) ==> SpaceAtEnd(s) != 0
  {
    hide Utf8, SpaceAtStart, SpaceAtEnd;
    SpaceEncoding(c);
    if Utf8(c) <= s {
      SpaceStarts(c, s[|Utf8(c)|..]);
      assert s == Utf8(c) + s[|Utf8(c)|..];
    }
    if |Utf8(c)| <= |s| && s[|s| - |Utf8(c)|..] == Utf8(c) {
      SpaceEnds(c, s[..|s| - |Utf8(c)|]);
      assert s == s[..|s| - |Utf8(c)|] + Utf8(c);
    }
  }

  // What follows a solid start does not make it white space.
  lemma StartStaysSolid(key: Bytes, pad: string)
    requires key != [] && SpaceAtStart(key) == 0 && Spaces(pad)
    ensures SpaceAtStart(key + Utf8Text(pad)) == 0
  {
    hide Utf8;
    if pad != "" {
      SpaceEncoding(pad[0]);
      var t := Utf8Text(pad);
      assert t[0] == Utf8(pad[0])[0];
    }
  }

  lemma {:induction false} TrimStartIs(lead: string, key: Bytes, pad: string)
    requires Spaces(lead) && Spaces(pad) && SpaceAtStart(key) == 0
    ensures TrimStart(Utf8Text(lead) + (key + Utf8Text(pad))) == if key == [] then [] else key + Utf8Text(pad)
    decreases |pad|, |lead|
  {
    hide Utf8, SpaceAtStart;
    var rest := key + Utf8Text(pad);
    if lead != "" {
      var more := Utf8Text(lead[1..]) + rest;
      assert Utf8Text(lead) + rest == Utf8(lead[0]) + more;
      SpaceStarts(lead[0], more);
      SpaceEncoding(lead[0]);
      TrimStartIs(lead[1..], key, pad);
    } else {
      assert Utf8Text(lead) + rest == rest;
      if key != [] {
        StartStaysSolid(key, pad);
      } else if pad != "" {
        NothingStarts();
        assert rest == Utf8Text(pad) + ([] + Utf8Text(""));
        TrimStartIs(pad, [], "");
      } else {
        NothingStarts();
      }
    }
  }

  lemma NothingStarts()
    ensures SpaceAtStart([]) == 0 && SpaceAtEnd([]) == 0
  {
  }

  lemma {:induction false} Utf8Last(s: string)
    requires s != ""
    ensures Utf8Text(s) == Utf8Text(s[..|s| - 1]) + Utf8(s[|s| - 1])
  {
    hide Utf8;
    if |s| > 1 {
      Utf8Last(s[1..]);
      assert s[1..][..|s| - 2] == s[..|s| - 1][1..];
    } else {
      assert Utf8Text(s[1..]) == [] && Utf8Text(s[..0]) == [];
    }
  }

  lemma {:induction false} TrimEndIs(key: Bytes, pad: string)
    requires Spaces(pad) && SpaceAtEnd(key) == 0
    ensures TrimEnd(key + Utf8Text(pad)) == key
    decreases |pad|
  {
    hide Utf8, SpaceAtEnd;
    if pad == "" {
      assert key + Utf8Text(pad) == key;
    } else {
      var init, c := pad[..|pad| - 1], pad[|pad| - 1];
      Utf8Last(pad);
      assert key + Utf8Text(pad) == (key + Utf8Text(init)) + Utf8(c);
      SpaceEnds(c, key + Utf8Text(init));
      SpaceEncoding(c);
      TrimEndIs(key, init);
    }
  }

  /** White space of any kind around a key with solid ends is trimmed, and nothing else is. */
  lemma TrimSpaceIs(lead: string, key: Bytes, pad: string)
    requires Spaces(lead) && Spaces(pad) && SolidEnds(key)
    ensures TrimSpace(Utf8Text(lead) + key + Utf8Text(pad)) == key
  {
    hide Utf8, SpaceAtStart, SpaceAtEnd, SolidEnds, TrimStart, TrimEnd;
    SolidIs(key);
    TrimStartIs(lead, key, pad);
    assert Utf8Text(lead) + key + Utf8Text(pad) == Utf8Text(lead) + (key + Utf8Text(pad));
    if key == [] {
      TrimEndIs([], "");
      assert [] + Utf8Text("") == [];
    } else {
      TrimEndIs(key, pad);
    }
  }

  /** Every byte string is such a key with white space around it, so this says what is trimmed of any input. */
  lemma TrimSpaceMeans(s: Bytes) returns (lead: string, pad: string)
    ensures Spaces(lead) && Spaces(pad) && SolidEnds(TrimSpace(s))
    ensures s == Utf8Text(lead) + TrimSpace(s) + Utf8Text(pad)
  {
    hide Utf8, SpaceAtStart, SpaceAtEnd;
    lead := TrimStartTakes(s);
    pad := TrimEndTakes(TrimStart(s));
    var t := TrimSpace(s);
    SolidIs(t);
    if t != [] { EndKeepsStart(TrimStart(s), t); } else { NothingStarts(); }
  }

  lemma {:induction false} TrimStartTakes(s: Bytes) returns (lead: string)
    ensures Spaces(lead) && s == Utf8Text(lead) + TrimStart(s) && SpaceAtStart(TrimStart(s)) == 0
    decreases |s|
  {
    hide Utf8, SpaceAtStart, GoStrings.IsSpace;
    if SpaceAtStart(s) == 0 {
      lead := "";
      assert s == [] + s;
    } else {
      var n := SpaceAtStart(s);
      var c := RuneAtStart(s);
      var more := TrimStartTakes(s[n..]);
      lead := [c] + more;
      assert s == s[..n] + s[n..];
    }
  }

  lemma {:induction false} TrimEndTakes(s: Bytes) returns (pad: string)
    ensures Spaces(pad) && s == TrimEnd(s) + Utf8Text(pad) && SpaceAtEnd(TrimEnd(s)) == 0
    decreases |s|
  {
    hide Utf8, SpaceAtEnd, GoStrings.IsSpace;
    if SpaceAtEnd(s) == 0 {
      pad := "";
      assert s == s + [];
    } else {
      var n := |s| - SpaceAtEnd(s);
      var c := RuneAtEnd(s);
      var more := TrimEndTakes(s[..n]);
      pad := more + [c];
      EndJoins(TrimEnd(s), more, c);
      assert s == s[..n] + s[n..];
    }
  }

  lemma EndJoins(t: Bytes, more: string, c: char)
    ensures (t + Utf8Text(more)) + Utf8(c) == t + Utf8Text(more + [c])
  {
    hide Utf8, Utf8Text;
    Utf8Last(more + [c]);
    assert (more + [c])[..|more|] == more;
  }

  lemma RuneAtStart(s: Bytes) returns (c: char)
    requires SpaceAtStart(s) != 0
    ensures GoStrings.IsSpace(c) && Utf8(c) == s[..SpaceAtStart(s)]
  {
    hide Utf8;
    c := EncodedSpace(s[..SpaceAtStart(s)]);
  }

  lemma RuneAtEnd(s: Bytes) returns (c: char)
    requires SpaceAtEnd(s) != 0
    ensures GoStrings.IsSpace(c) && Utf8(c) == s[|s| - SpaceAtEnd(s)..]
  {
    hide Utf8;
    c := EncodedSpace(s[|s| - SpaceAtEnd(s)..]);
  }

  // What is cut off at the end leaves the start as it was.
  lemma EndKeepsStart(s: Bytes, t: Bytes)
    requires t != [] && t <= s && SpaceAtStart(s) == 0
    ensures SpaceAtStart(t) == 0
  {
  }

  predicate Trailing(b: Byte) {
    b == SP || b == TAB || b == CR
  }

  // strings.TrimRight(s, " \t\r")
  function TrimTrailing(s: Bytes): Bytes {
    if s != [] && Trailing(s[|s| - 1]) then TrimTrailing(s[..|s| - 1]) else s
  }

  // ---------------------------------------------------------------------------------------------
  // What the reader makes of a text.
  // ---------------------------------------------------------------------------------------------

  predicate Blank(b: Byte) {
    b == SP || b == TAB
  }

  // The number of leading blanks.
  function BlankRun(s: Bytes): (n: nat)
    ensures n <= |s|
    ensures n < |s| ==> !Blank(s[n])
    ensures forall k | 0 <= k < n :: Blank(s[k])
  {
    if s != [] && Blank(s[0]) then 1 + BlankRun(s[1..]) else 0
  }

  // The number of leading bytes before the first one in `stops`.
  function UpTo(s: Bytes, stops: set<Byte>): (n: nat)
    ensures n <= |s|
    ensures n < |s| ==> s[n] in stops
    ensures forall k | 0 <= k < n :: s[k] !in stops
  {
    if s == [] || s[0] in stops then 0 else 1 + UpTo(s[1..], stops)
  }

  // What is left after the current line and its newline.
  function AfterLine(s: Bytes): (r: Bytes)
    ensures |r| <= |s| && (s != [] ==> |r| < |s|)
  {
    var k := UpTo(s, {NL});
    if k < |s| then s[k + 1..] else []
  }

  function Unescape(b: Byte): Byte {
    if b == LN then NL else if b == LR then CR else if b == LT then TAB else b
  }

  /** What a backslash means in front of each byte: n, r and t are newline, return and tab, and every other byte,
      quote and backslash among them, is itself. */
  lemma EscapesMean(b: Byte)
    ensures Unescape(110) == 10 && Unescape(114) == 13 && Unescape(116) == 9
    ensures b !in {110, 114, 116} ==> Unescape(b) == b
  {
  }

  // The body of a double-quoted value: its meaning, and how much was read with the closing quote.
  function DecodeDouble(s: Bytes): (r: (Bytes, nat))
    ensures r.1 <= |s|
  {
    if s == [] then ([], 0)
    else if s[0] == DQ then ([], 1)
    else if s[0] == BS && |s| > 1 then
      var (v, n) := DecodeDouble(s[2..]);
      ([Unescape(s[1])] + v, n + 2)
    else
      var (v, n) := DecodeDouble(s[1..]);
      ([s[0]] + v, n + 1)
  }

  function DecodeValue(s: Bytes): (r: (Bytes, nat))
    ensures r.1 <= |s|
  {
    if s == [] then ([], 0)
    else if s[0] == DQ then
      var (v, n) := DecodeDouble(s[1..]);
      (v, n + 1)
    else if s[0] == SQ then
      var k := UpTo(s[1..], {SQ});
      (s[1..][..k], if k < |s[1..]| then k + 2 else k + 1)
    else
      var k := UpTo(s, {NL});
      (TrimTrailing(s[..k]), k)
  }

  // The text behind a `=`: the value, and what is left after its line.
  function ValueAt(v: Bytes): (r: (Bytes, Bytes))
    ensures |r.1| <= |v|
  {
    var text := v[BlankRun(v)..];
    (DecodeValue(text).0, AfterLine(text[DecodeValue(text).1..]))
  }

  // A line that starts with neither blank, newline nor `#`: its entry if it has one, and what is left.
  function KeyLine(r: Bytes): (p: (seq<Entry>, Bytes))
    requires r != []
    ensures |p.1| < |r| && |p.0| <= 1
  {
    var e := UpTo(r, {EQ, NL});
    if e == |r| || r[e] == NL then ([], AfterLine(r))
    else
      var (value, rest) := ValueAt(r[e + 1..]);
      (if TrimSpace(r[..e]) == [] then [] else [Entry(TrimSpace(r[..e]), value)], rest)
  }

  // The first line of s: its entry if it has one, and what is left.
  function Line(s: Bytes): (p: (seq<Entry>, Bytes))
    requires s != []
    ensures |p.1| < |s| && |p.0| <= 1
  {
    var r := s[BlankRun(s)..];
    if r == [] then ([], [])
    else if r[0] == NL then ([], r[1..])
    else if r[0] == HASH then ([], AfterLine(r))
    else KeyLine(r)
  }

  function Entries(s: Bytes): seq<Entry>
    decreases |s|
  {
    if s == [] then [] else Line(s).0 + Entries(Line(s).1)
  }

  // The map a list of entries leaves when each is stored in turn.
  function LastWins(es: seq<Entry>): map<Bytes, Bytes> {
    if es == [] then map[]
    else LastWins(es[..|es| - 1])[es[|es| - 1].key := es[|es| - 1].value]
  }

  /** The map holds exactly the keys that occur, each with the value of its last occurrence. */
  lemma {:induction false} LastWinsMeans(es: seq<Entry>, key: Bytes)
    ensures key in LastWins(es) <==> exists i :: 0 <= i < |es| && es[i].key == key
    ensures forall i | 0 <= i < |es| && es[i].key == key && (forall j | i < j < |es| :: es[j].key != key) ::
              LastWins(es)[key] == es[i].value
  {
    if es != [] {
      var init := es[..|es| - 1];
      LastWinsMeans(init, key);
      assert forall i | 0 <= i < |init| :: init[i] == es[i];
      if es[|es| - 1].key != key && key in LastWins(es) {
        var i :| 0 <= i < |init| && init[i].key == key;
        assert es[i].key == key;
      }
    }
  }

  lemma LastWinsAppend(es: seq<Entry>, e: Entry)
    ensures LastWins(es + [e]) == LastWins(es)[e.key := e.value]
  {
    assert (es + [e])[..|es|] == es;
  }

  // ---------------------------------------------------------------------------------------------
  // The index loops.
  // ---------------------------------------------------------------------------------------------

  method SkipBlanks(s: Bytes, start: nat) returns (i: nat)
    requires start <= |s|
    ensures i == start + BlankRun(s[start..])
  {
    i := start;
    while i < |s| && (s[i] == SP || s[i] == TAB)
      invariant start <= i <= |s|
      invariant BlankRun(s[start..]) == i - start + BlankRun(s[i..])
    {
      assert s[i..][1..] == s[i + 1..];
      i := i + 1;
    }
  }

  method SkipTo(s: Bytes, start: nat, stops: set<Byte>) returns (i: nat)
    requires start <= |s|
    ensures i == start + UpTo(s[start..], stops)
  {
    i := start;
    while i < |s| && s[i] !in stops
      invariant start <= i <= |s|
      invariant UpTo(s[start..], stops) == i - start + UpTo(s[i..], stops)
    {
      assert s[i..][1..] == s[i + 1..];
      i := i + 1;
    }
  }

  // Moves past the rest of the line and its newline.
  method SkipLine(s: Bytes, start: nat) returns (i: nat)
    requires start <= |s|
    ensures start <= i <= |s| && s[i..] == AfterLine(s[start..])
    ensures start < |s| ==> start < i
  {
    i := SkipTo(s, start, {NL});
    if i < |s| {
      i := i + 1;
    }
  }

  // The body of a double-quoted value, from behind the opening quote.
  method DecodeQuoted(s: Bytes, start: nat) returns (value: Bytes, i: nat)
    requires start <= |s|
    ensures start <= i <= |s|
    ensures (value, i - start) == DecodeDouble(s[start..])
  {
    hide Unescape, DecodeDouble;
    value, i := [], start;
    ghost var all := DecodeDouble(s[start..]);
    while i < |s|
      invariant start <= i <= |s|
      invariant all.0 == value + DecodeDouble(s[i..]).0
      invariant all.1 == i - start + DecodeDouble(s[i..]).1
    {
      var c := s[i];
      DoubleAt(s, i);
      if c == DQ {
        assert value + [] == value;
        return value, i + 1;
      }
      if c == BS && i + 1 < |s| {
        assert value + DecodeDouble(s[i..]).0 == value + [Unescape(s[i + 1])] + DecodeDouble(s[i + 2..]).0;
        value, i := value + [Unescape(s[i + 1])], i + 2;
      } else {
        assert value + DecodeDouble(s[i..]).0 == value + [c] + DecodeDouble(s[i + 1..]).0;
        value, i := value + [c], i + 1;
      }
    }
    DoubleAt(s, i);
    assert value + [] == value;
  }

  // The body of a double-quoted value from place i on, by the byte there.
  lemma DoubleAt(s: Bytes, i: nat)
    requires i <= |s|
    ensures DecodeDouble(s[i..]) ==
            if i == |s| then ([], 0)
            else if s[i] == DQ then ([], 1)
            else if s[i] == BS && i + 1 < |s| then
              ([Unescape(s[i + 1])] + DecodeDouble(s[i + 2..]).0, DecodeDouble(s[i + 2..]).1 + 2)
            else ([s[i]] + DecodeDouble(s[i + 1..]).0, DecodeDouble(s[i + 1..]).1 + 1)
  {
    hide Unescape;
    if i < |s| { assert s[i..][1..] == s[i + 1..]; }
    if i + 1 < |s| { assert s[i..][2..] == s[i + 2..]; }
  }

  method DecodeDotenvValue(s: Bytes, start: nat) returns (value: Bytes, next: nat)
    requires start <= |s|
    ensures start <= next <= |s|
    ensures (value, next - start) == DecodeValue(s[start..])
  {
    if start >= |s| {
      return [], start;
    }
    if s[start] == DQ {
      assert s[start..][1..] == s[start + 1..];
      value, next := DecodeQuoted(s, start + 1);
    } else if s[start] == SQ {
      assert s[start..][1..] == s[start + 1..];
      next := SkipTo(s, start + 1, {SQ});
      value := s[start + 1..next];
      assert value == s[start + 1..][..next - start - 1];
      if next < |s| {
        next := next + 1;
      }
    } else {
      next := SkipTo(s, start, {NL});
      assert s[start..next] == s[start..][..next - start];
      value := TrimTrailing(s[start..next]);
    }
  }

  // The part of a line behind its `=`.
  method ReadValue(s: Bytes, start: nat) returns (value: Bytes, next: nat)
    requires start <= |s|
    ensures start <= next <= |s|
    ensures (value, s[next..]) == ValueAt(s[start..])
  {
    hide DecodeValue, BlankRun, AfterLine;
    var i := SkipBlanks(s, start);
    assert s[start..][i - start..] == s[i..];
    var end;
    value, end := DecodeDotenvValue(s, i);
    assert s[i..][end - i..] == s[end..];
    next := SkipLine(s, end);
  }

  method ReadKeyLine(s: Bytes, start: nat) returns (read: seq<Entry>, next: nat)
    requires start < |s|
    ensures start < next <= |s|
    ensures (read, s[next..]) == KeyLine(s[start..])
  {
    hide ValueAt, TrimSpace, AfterLine;
    read := [];
    var eq := SkipTo(s, start, {EQ, NL});
    assert s[start..][eq - start..] == s[eq..];
    if eq >= |s| || s[eq] == NL {
      KeyLineEnd(s[start..], eq - start);
      next := SkipLine(s, eq);
      return;
    }
    var key := TrimSpace(s[start..eq]);
    assert s[start..][..eq - start] == s[start..eq];
    assert s[start..][eq - start + 1..] == s[eq + 1..];
    var value;
    value, next := ReadValue(s, eq + 1);
    if key != [] {
      read := [Entry(key, value)];
    }
  }

  // One turn of the reader's loop: at most one entry, and the start of the next line.
  method ReadLine(s: Bytes, start: nat) returns (read: seq<Entry>, next: nat)
    requires start < |s|
    ensures start < next <= |s|
    ensures (read, s[next..]) == Line(s[start..])
  {
    hide KeyLine, ValueAt, TrimSpace;
    read := [];
    var i := SkipBlanks(s, start);
    assert s[start..][i - start..] == s[i..];
    if i >= |s| {
      next := i;
    } else if s[i] == NL {
      next := i + 1;
    } else if s[i] == HASH {
      next := SkipLine(s, i);
    } else {
      read, next := ReadKeyLine(s, i);
    }
  }

  lemma StoreLine(s: Bytes, done: seq<Entry>, rest: Bytes)
    requires rest != [] && Entries(s) == done + Entries(rest)
    ensures Entries(s) == done + Line(rest).0 + Entries(Line(rest).1)
    ensures var read := Line(rest).0;
            LastWins(done + read) == if read == [] then LastWins(done) else LastWins(done)[read[0].key := read[0].value]
  {
    hide Line, LastWins;
    var read := Line(rest).0;
    assert Entries(rest) == read + Entries(Line(rest).1);
    assert done + (read + Entries(Line(rest).1)) == done + read + Entries(Line(rest).1);
    if read == [] {
      assert done + read == done;
    } else {
      assert read == [read[0]];
      LastWinsAppend(done, read[0]);
    }
  }

  /** The reader: every byte sequence is read to its end, inside its bounds, with the result `Entries` says. */
  method ParseDotenv(s: Bytes) returns (out: map<Bytes, Bytes>)
    ensures out == LastWins(Entries(s))
  {
    out := map[];
    var i := 0;
    ghost var done: seq<Entry> := [];
    assert s[0..] == s;
    while i < |s|
      invariant i <= |s|
      invariant Entries(s) == done + Entries(s[i..])
      invariant out == LastWins(done)
    {
      hide Line, Entries, LastWins;
      var read, next := ReadLine(s, i);
      StoreLine(s, done, s[i..]);
      i := next;
      if read != [] {
        out := out[read[0].key := read[0].value];
      }
      done := done + read;
    }
    assert s[i..] == [] && done + [] == done;
  }

  // A line without `=` ends where its newline is, seen from its start or from there.
  lemma KeyLineEnd(r: Bytes, e: nat)
    requires e == UpTo(r, {EQ, NL}) && (e == |r| || r[e] == NL)
    ensures AfterLine(r) == AfterLine(r[e..])
  {
    UpToIs(r, {NL}, e);
    UpToIs(r[e..], {NL}, 0);
  }

  lemma {:induction false} UpToIs(s: Bytes, stops: set<Byte>, n: nat)
    requires n <= |s| && (n < |s| ==> s[n] in stops)
    requires forall k | 0 <= k < n :: s[k] !in stops
    ensures UpTo(s, stops) == n
  {
    if n > 0 { UpToIs(s[1..], stops, n - 1); }
  }

  // ---------------------------------------------------------------------------------------------
  // Documents in the accepted format, and the round trip.
  // ---------------------------------------------------------------------------------------------

  // One byte of a double-quoted body, as itself or behind a backslash.
  datatype Cell = Raw(b: Byte) | Escaped(code: Byte)

  datatype ValueText =
    | Double(cells: seq<Cell>)  // may span lines
    | Single(body: Bytes)       // may span lines
    | Bare(body: Bytes)

  datatype Item =
    | BlankLine(indent: Bytes)
    | Comment(indent: Bytes, text: Bytes)
    | NoPair(indent: Bytes, text: Bytes)
    | Pair(indent: Bytes, lead: string, key: Bytes, pad: string, gap: Bytes, value: ValueText, tail: Bytes)

  predicate Blanks(s: Bytes) {
    forall b | b in s :: Blank(b)
  }

  predicate OnOneLine(s: Bytes) {
    NL !in s
  }

  predicate CellOk(c: Cell) {
    c.Raw? ==> c.b != DQ && c.b != BS
  }

  predicate ValueOk(v: ValueText, tail: Bytes) {
    match v
    case Double(cells) => (forall c | c in cells :: CellOk(c)) && OnOneLine(tail)
    case Single(body) => SQ !in body && OnOneLine(tail)
    case Bare(body) =>
      && OnOneLine(body) && (forall b | b in tail :: Trailing(b))
      && (body + tail != [] ==> (body + tail)[0] != DQ && (body + tail)[0] != SQ && !Blank((body + tail)[0]))
      && (body != [] ==> !Trailing(body[|body| - 1]))
  }

  // A key with white space around it.
  function KeyText(lead: string, key: Bytes, pad: string): Bytes {
    Utf8Text(lead) + key + Utf8Text(pad)
  }

  ghost predicate ItemOk(it: Item) {
    Blanks(it.indent)
    && match it
       case BlankLine(_) => true
       case Comment(_, text) => OnOneLine(text)
       case NoPair(_, text) =>
         text != [] && OnOneLine(text) && EQ !in text && !Blank(text[0]) && text[0] != HASH
       case Pair(_, lead, key, pad, gap, v, tail) =>
         var text := KeyText(lead, key, pad);
         && Spaces(lead) && SolidEnds(key) && Spaces(pad)
         && OnOneLine(text) && EQ !in text && (text != [] ==> !Blank(text[0]) && text[0] != HASH)
         && Blanks(gap) && ValueOk(v, tail)
  }

  function PrintCells(cells: seq<Cell>): Bytes {
    if cells == [] then []
    else (if cells[0].Raw? then [cells[0].b] else [BS, cells[0].code]) + PrintCells(cells[1..])
  }

  function CellsMean(cells: seq<Cell>): Bytes {
    if cells == [] then []
    else [if cells[0].Raw? then cells[0].b else Unescape(cells[0].code)] + CellsMean(cells[1..])
  }

  function PrintValue(v: ValueText): Bytes {
    match v
    case Double(cells) => [DQ] + PrintCells(cells) + [DQ]
    case Single(body) => [SQ] + body + [SQ]
    case Bare(body) => body
  }

  function ValueMeans(v: ValueText): Bytes {
    match v
    case Double(cells) => CellsMean(cells)
    case Single(body) => body
    case Bare(body) => body
  }

  function PrintItem(it: Item): Bytes {
    match it
    case BlankLine(indent) => indent
    case Comment(indent, text) => indent + ([HASH] + text)
    case NoPair(indent, text) => indent + text
    case Pair(indent, lead, key, pad, gap, v, tail) =>
      indent + (KeyText(lead, key, pad) + ([EQ] + (gap + (PrintValue(v) + tail))))
  }

  // Items on lines of their own; the last newline may be missing.
  function Print(items: seq<Item>, newline: bool): Bytes {
    if items == [] then []
    else if |items| == 1 then PrintItem(items[0]) + (if newline then [NL] else [])
    else PrintItem(items[0]) + ([NL] + Print(items[1..], newline))
  }

  // What an item says: a pair whose key is not empty, under exactly that key.
  function ItemMeans(it: Item): seq<Entry> {
    if it.Pair? && it.key != [] then [Entry(it.key, ValueMeans(it.value))] else []
  }

  function Meaning(items: seq<Item>): seq<Entry> {
    if items == [] then [] else ItemMeans(items[0]) + Meaning(items[1..])
  }

  // The text behind an item: nothing, or a newline and more.
  predicate AtLineEnd(rest: Bytes) {
    rest == [] || rest[0] == NL
  }

  function NextLine(rest: Bytes): Bytes {
    if rest == [] then [] else rest[1..]
  }

  lemma {:induction false} BlankRunIs(a: Bytes, b: Bytes)
    requires Blanks(a) && (b == [] || !Blank(b[0]))
    ensures BlankRun(a + b) == |a| && (a + b)[|a|..] == b
  {
    if a != [] {
      assert (a + b)[1..] == a[1..] + b;
      BlankRunIs(a[1..], b);
    } else {
      assert a + b == b;
    }
  }

  lemma UpToConcat(a: Bytes, b: Bytes, stops: set<Byte>)
    requires (forall x | x in a :: x !in stops) && (b == [] || b[0] in stops)
    ensures UpTo(a + b, stops) == |a|
  {
    UpToIs(a + b, stops, |a|);
  }

  lemma AfterLineIs(a: Bytes, rest: Bytes)
    requires OnOneLine(a) && AtLineEnd(rest)
    ensures AfterLine(a + rest) == NextLine(rest)
  {
    UpToConcat(a, rest, {NL});
  }

  lemma {:induction false} TrimTrailingIs(body: Bytes, tail: Bytes)
    requires (forall b | b in tail :: Trailing(b)) && (body != [] ==> !Trailing(body[|body| - 1]))
    ensures TrimTrailing(body + tail) == body
  {
    if tail == [] {
      assert body + tail == body;
    } else {
      assert (body + tail)[..|body + tail| - 1] == body + tail[..|tail| - 1];
      TrimTrailingIs(body, tail[..|tail| - 1]);
    }
  }

  lemma {:induction false} DecodeDoubleIs(cells: seq<Cell>, rest: Bytes)
    requires forall c | c in cells :: CellOk(c)
    ensures DecodeDouble(PrintCells(cells) + ([DQ] + rest)) == (CellsMean(cells), |PrintCells(cells)| + 1)
  {
    var s := PrintCells(cells) + ([DQ] + rest);
    if cells == [] {
      assert s == [DQ] + rest;
    } else {
      var more := PrintCells(cells[1..]) + ([DQ] + rest);
      DecodeDoubleIs(cells[1..], rest);
      assert CellOk(cells[0]);
      if cells[0].Raw? {
        assert s[1..] == more;
      } else {
        assert s[2..] == more;
      }
    }
  }

  // Reading s gives the value, and what is left of the line leads to the next one.
  ghost predicate ReadsAs(s: Bytes, value: Bytes, next: Bytes) {
    DecodeValue(s).0 == value && AfterLine(s[DecodeValue(s).1..]) == next
  }

  lemma DoubleReads(cells: seq<Cell>, more: Bytes, next: Bytes)
    requires (forall c | c in cells :: CellOk(c)) && AfterLine(more) == next
    ensures ReadsAs([DQ] + PrintCells(cells) + [DQ] + more, CellsMean(cells), next)
  {
    hide AfterLine, UpTo;
    var s := [DQ] + PrintCells(cells) + [DQ] + more;
    DecodeDoubleIs(cells, more);
    assert s[1..] == PrintCells(cells) + ([DQ] + more);
    assert s[|PrintCells(cells)| + 2..] == more;
  }

  lemma SingleReads(body: Bytes, more: Bytes, next: Bytes)
    requires SQ !in body && AfterLine(more) == next
    ensures ReadsAs([SQ] + body + [SQ] + more, body, next)
  {
    hide AfterLine;
    var s := [SQ] + body + [SQ] + more;
    assert s[1..] == body + ([SQ] + more);
    UpToConcat(body, [SQ] + more, {SQ});
    assert s[1..][..|body|] == body && s[|body| + 2..] == more;
  }

  lemma BareReads(body: Bytes, tail: Bytes, rest: Bytes)
    requires ValueOk(Bare(body), tail) && AtLineEnd(rest)
    ensures ReadsAs(body + tail + rest, body, NextLine(rest))
  {
    var s := body + tail + rest;
    UpToConcat(body + tail, rest, {NL});
    assert s[..|body + tail|] == body + tail && s[|body + tail|..] == rest;
    TrimTrailingIs(body, tail);
    AfterLineIs([], rest);
    assert [] + rest == rest;
  }

  lemma DecodeValueIs(v: ValueText, tail: Bytes, rest: Bytes)
    requires ValueOk(v, tail) && AtLineEnd(rest)
    ensures ReadsAs(PrintValue(v) + (tail + rest), ValueMeans(v), NextLine(rest))
  {
    hide ReadsAs;
    match v
    case Double(cells) =>
      AfterLineIs(tail, rest);
      DoubleReads(cells, tail + rest, NextLine(rest));
    case Single(body) =>
      AfterLineIs(tail, rest);
      SingleReads(body, tail + rest, NextLine(rest));
    case Bare(body) =>
      BareReads(body, tail, rest);
      assert PrintValue(v) + (tail + rest) == body + tail + rest;
  }

  lemma ValueAtIs(gap: Bytes, v: ValueText, tail: Bytes, rest: Bytes)
    requires Blanks(gap) && ValueOk(v, tail) && AtLineEnd(rest)
    ensures ValueAt(gap + (PrintValue(v) + (tail + rest))) == (ValueMeans(v), NextLine(rest))
  {
    hide DecodeValue;
    var text := PrintValue(v) + (tail + rest);
    assert text == [] || !Blank(text[0]) by {
      if v.Bare? { assert text == (v.body + tail) + rest; }
    }
    BlankRunIs(gap, text);
    DecodeValueIs(v, tail, rest);
  }

  lemma KeyLineIs(it: Item, rest: Bytes)
    requires it.Pair? && ItemOk(it) && AtLineEnd(rest)
    ensures var text := KeyText(it.lead, it.key, it.pad);
            var r := text + ([EQ] + (it.gap + (PrintValue(it.value) + (it.tail + rest))));
            KeyLine(r) == (ItemMeans(it), NextLine(rest))
  {
    hide ValueAt, TrimSpace, Spaces, SolidEnds, Utf8Text;
    var text := KeyText(it.lead, it.key, it.pad);
    var more := it.gap + (PrintValue(it.value) + (it.tail + rest));
    var r := text + ([EQ] + more);
    UpToConcat(text, [EQ] + more, {EQ, NL});
    assert r[..|text|] == text && r[|text| + 1..] == more;
    ValueAtIs(it.gap, it.value, it.tail, rest);
    TrimSpaceIs(it.lead, it.key, it.pad);
  }

  lemma NoPairIs(text: Bytes, rest: Bytes)
    requires text != [] && OnOneLine(text) && EQ !in text && AtLineEnd(rest)
    ensures KeyLine(text + rest) == ([], NextLine(rest))
  {
    UpToConcat(text, rest, {EQ, NL});
    AfterLineIs(text, rest);
  }

  // A line is what stands behind its indent.
  function Unindented(r: Bytes): (seq<Entry>, Bytes) {
    if r == [] then ([], []) else if r[0] == NL then ([], r[1..]) else if r[0] == HASH then ([], AfterLine(r))
    else KeyLine(r)
  }

  lemma LineIsUnindented(indent: Bytes, r: Bytes)
    requires Blanks(indent) && (r != [] ==> !Blank(r[0])) && indent + r != []
    ensures Line(indent + r) == Unindented(r)
  {
    hide KeyLine, AfterLine;
    BlankRunIs(indent, r);
  }

  // The first line of a printed item is read as that item.
  lemma LineIs(it: Item, rest: Bytes)
    requires ItemOk(it) && AtLineEnd(rest) && PrintItem(it) + rest != []
    ensures Line(PrintItem(it) + rest) == (ItemMeans(it), NextLine(rest))
  {
    hide Line, KeyLine, TrimSpace, AfterLine, KeyText, Spaces, SolidEnds;
    var s := PrintItem(it) + rest;
    match it
    case BlankLine(indent) =>
      LineIsUnindented(indent, rest);
    case Comment(indent, text) =>
      var r := [HASH] + text + rest;
      assert s == indent + r;
      LineIsUnindented(indent, r);
      AfterLineIs([HASH] + text, rest);
    case NoPair(indent, text) =>
      assert s == indent + (text + rest);
      LineIsUnindented(indent, text + rest);
      NoPairIs(text, rest);
    case Pair(_, _, _, _, _, _, _) =>
      PairLineIs(it, rest);
  }

  lemma PairLineIs(it: Item, rest: Bytes)
    requires it.Pair? && ItemOk(it) && AtLineEnd(rest)
    ensures Line(PrintItem(it) + rest) == (ItemMeans(it), NextLine(rest))
  {
    hide Line, KeyLine, TrimSpace, AfterLine, KeyText, Spaces, SolidEnds;
    var r := KeyText(it.lead, it.key, it.pad) + ([EQ] + (it.gap + (PrintValue(it.value) + (it.tail + rest))));
    assert PrintItem(it) + rest == it.indent + r;
    LineIsUnindented(it.indent, r);
    KeyLineIs(it, rest);
  }

  lemma EntriesItem(it: Item, rest: Bytes)
    requires ItemOk(it) && AtLineEnd(rest)
    ensures Entries(PrintItem(it) + rest) == ItemMeans(it) + Entries(NextLine(rest))
  {
    hide Line, TrimSpace;
    if PrintItem(it) + rest == [] {
      assert it.BlankLine?;
    } else {
      LineIs(it, rest);
    }
  }

  /** Round trip: a document in the accepted format, with any comments, blank lines and lines without a pair
      between its pairs, is read back as exactly its pairs in their order. */
  lemma {:induction false} EntriesOfPrint(items: seq<Item>, newline: bool)
    requires forall it | it in items :: ItemOk(it)
    ensures Entries(Print(items, newline)) == Meaning(items)
  {
    hide Line, TrimSpace;
    if items != [] {
      var rest := if |items| == 1 then (if newline then [NL] else []) else [NL] + Print(items[1..], newline);
      EntriesItem(items[0], rest);
      assert NextLine(rest) == Print(items[1..], newline);
      EntriesOfPrint(items[1..], newline);
    }
  }

  // The documented way to write any value: backslash, quote, newline, return and tab escaped.
  function Quote(value: Bytes): seq<Cell> {
    if value == [] then []
    else
      var b := value[0];
      [if b == BS || b == DQ then Escaped(b) else if b == NL then Escaped(LN)
       else if b == CR then Escaped(LR) else if b == TAB then Escaped(LT) else Raw(b)] + Quote(value[1..])
  }

  lemma {:induction false} QuoteMeans(value: Bytes)
    ensures CellsMean(Quote(value)) == value && forall c | c in Quote(value) :: CellOk(c)
  {
    if value != [] { QuoteMeans(value[1..]); }
  }

  // A key as written by hand: no white space at its ends, no `=`, no newline, not a comment.
  ghost predicate PlainKey(key: Bytes) {
    key != [] && SolidEnds(key) && OnOneLine(key) && EQ !in key && key[0] != HASH
  }

  // The document that writes every pair in the double-quoted form, one to a line.
  function Document(pairs: seq<Entry>): Bytes {
    Print(DocumentItems(pairs), true)
  }

  function DocumentItems(pairs: seq<Entry>): seq<Item> {
    if pairs == [] then []
    else [Pair([], "", pairs[0].key, "", [], Double(Quote(pairs[0].value)), [])] + DocumentItems(pairs[1..])
  }

  lemma SolidStart(key: Bytes)
    requires key != [] && SolidEnds(key)
    ensures !Blank(key[0])
  {
    SolidIs(key);
  }

  /** A double-quoted value that is never closed takes everything to the end of the input, a last lone backslash
      included as itself; so does a single-quoted one. */
  lemma UnclosedTakesAll(cells: seq<Cell>, lone: bool, body: Bytes)
    requires (forall c | c in cells :: CellOk(c)) && SQ !in body
    ensures var text := [DQ] + (PrintCells(cells) + if lone then [BS] else []);
            DecodeValue(text) == (CellsMean(cells) + (if lone then [BS] else []), |text|)
    ensures DecodeValue([SQ] + body) == (body, |body| + 1)
  {
    hide DecodeDouble;
    var last := if lone then [BS] else [];
    UnclosedDouble(cells, last);
    assert ([DQ] + (PrintCells(cells) + last))[1..] == PrintCells(cells) + last;
    UpToIs(body, {SQ}, |body|);
    assert ([SQ] + body)[1..] == body && body[..|body|] == body;
  }

  lemma DecodeCell(c: Cell, more: Bytes)
    requires CellOk(c)
    ensures var text, m := if c.Raw? then [c.b] else [BS, c.code], if c.Raw? then c.b else Unescape(c.code);
            DecodeDouble(text + more) == ([m] + DecodeDouble(more).0, DecodeDouble(more).1 + |text|)
  {
    var text := if c.Raw? then [c.b] else [BS, c.code];
    assert (text + more)[|text|..] == more;
  }

  lemma {:induction false} UnclosedDouble(cells: seq<Cell>, last: Bytes)
    requires (forall c | c in cells :: CellOk(c)) && (last == [] || last == [BS])
    ensures DecodeDouble(PrintCells(cells) + last) == (CellsMean(cells) + last, |PrintCells(cells)| + |last|)
  {
    hide DecodeDouble, CellOk;
    if cells == [] {
      LastBackslash(last);
      assert PrintCells(cells) + last == last && CellsMean(cells) + last == last;
    } else {
      var c, more := cells[0], PrintCells(cells[1..]) + last;
      var text, m := if c.Raw? then [c.b] else [BS, c.code], if c.Raw? then c.b else Unescape(c.code);
      assert PrintCells(cells) + last == text + more;
      UnclosedDouble(cells[1..], last);
      DecodeCell(c, more);
      assert CellsMean(cells) + last == [m] + (CellsMean(cells[1..]) + last);
    }
  }

  lemma LastBackslash(last: Bytes)
    requires last == [] || last == [BS]
    ensures DecodeDouble(last) == (last, |last|)
  {
    var none: Bytes := [];
    assert DecodeDouble(none) == (none, 0) && last + none == last;
    if last != [] { assert last[1..] == none; }
  }

  /** For any values at all, bytes of every kind included, the double-quoted document reads back as its pairs. */
  lemma {:induction false} DocumentRoundTrip(pairs: seq<Entry>)
    requires forall p | p in pairs :: PlainKey(p.key)
    ensures Entries(Document(pairs)) == pairs
  {
    DocumentItemsMean(pairs);
    EntriesOfPrint(DocumentItems(pairs), true);
  }

  lemma {:induction false} DocumentItemsMean(pairs: seq<Entry>)
    requires forall p | p in pairs :: PlainKey(p.key)
    ensures Meaning(DocumentItems(pairs)) == pairs && forall it | it in DocumentItems(pairs) :: ItemOk(it)
  {
    hide SolidEnds;
    if pairs != [] {
      var key := pairs[0].key;
      assert PlainKey(key);
      SolidStart(key);
      assert KeyText("", key, "") == key;
      QuoteMeans(pairs[0].value);
      DocumentItemsMean(pairs[1..]);
    }
  }
}
