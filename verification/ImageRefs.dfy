/**
 The output argument of an image build, which the builder reads as CSV, and the cache reference derived from
 a push reference.
 */
module ImageRefs {
  import opened Options
  import opened GoStrings

  // ---------------------------------------------------------------------------------------------
  // The output argument.
  // ---------------------------------------------------------------------------------------------

  function ImageOutputArg(refs: seq<string>): string {
    if |refs| == 1 then "type=image,name=" + refs[0] + ",push=true"
    else "type=image,\"name=" + Join(refs, ',') + "\",push=true"
  }

  // A field without quotes: up to a comma or the end of the record. A quote inside it is an error.
  function ReadBare(s: string): (r: Option<(string, string)>)
    ensures r.Some? ==> |r.value.1| <= |s|
  {
    if s == "" || s[0] == ',' || s[0] == '\n' then Some(("", s))
    else if s[0] == '"' then None
    else
      match ReadBare(s[1..])
      case None => None
      case Some((f, rest)) => Some(([s[0]] + f, rest))
  }

  // The rest of a quoted field: two quotes stand for one.
  function ReadQuoted(s: string): (r: Option<(string, string)>)
    ensures r.Some? ==> |r.value.1| < |s|
    decreases |s|
  {
    if s == "" then None
    else if s[0] == '"' && (|s| == 1 || s[1] != '"') then Some(("", s[1..]))
    else
      var skip := if s[0] == '"' then 1 else 0;
      match ReadQuoted(s[skip + 1..])
      case None => None
      case Some((f, rest)) => Some(([s[0]] + f, rest))
  }

  function ReadField(s: string): (r: Option<(string, string)>)
    ensures r.Some? ==> |r.value.1| <= |s|
  {
    if s != "" && s[0] == '"' then ReadQuoted(s[1..]) else ReadBare(s)
  }

  // The one record of the input, by section 2 of RFC 4180; None when the text is not exactly one record.
  function ReadRecord(s: string): Option<seq<string>>
    decreases |s|
  {
    match ReadField(s)
    case None => None
    case Some((f, rest)) =>
      if rest == "" then Some([f])
      else if rest[0] != ',' then None
      else
        match ReadRecord(rest[1..])
        case None => None
        case Some(fields) => Some([f] + fields)
  }

  predicate Bare(f: string) {
    forall c | c in f :: c != ',' && c != '"' && c != '\n'
  }

  lemma {:induction false} ReadBareIs(f: string, rest: string)
    requires Bare(f) && (rest != "" ==> rest[0] == ',' || rest[0] == '\n')
    ensures ReadBare(f + rest) == Some((f, rest))
  {
    if f == "" {
      assert f + rest == rest;
    } else {
      assert (f + rest)[1..] == f[1..] + rest && f == [f[0]] + f[1..];
      assert f[0] in f && forall c | c in f[1..] :: c in f;
      ReadBareIs(f[1..], rest);
    }
  }

  lemma {:induction false} ReadQuotedIs(f: string, rest: string)
    requires '"' !in f && (rest != "" ==> rest[0] != '"')
    ensures ReadQuoted(f + ("\"" + rest)) == Some((f, rest))
  {
    var s := f + ("\"" + rest);
    if f == "" {
      assert s == "\"" + rest;
    } else {
      assert s[1..] == f[1..] + ("\"" + rest) && f == [f[0]] + f[1..] && f[0] in f;
      ReadQuotedIs(f[1..], rest);
    }
  }

  function Prepend(f: string, r: Option<seq<string>>): Option<seq<string>> {
    match r
    case None => None
    case Some(fields) => Some([f] + fields)
  }

  lemma BareFieldThen(f: string, more: string)
    requires Bare(f)
    ensures ReadRecord(f + ("," + more)) == Prepend(f, ReadRecord(more))
  {
    ReadBareIs(f, "," + more);
    assert ("," + more)[1..] == more;
    if f != "" { assert f[0] in f; }
  }

  lemma QuotedFieldThen(f: string, more: string)
    requires '"' !in f
    ensures ReadRecord("\"" + (f + ("\"" + ("," + more)))) == Prepend(f, ReadRecord(more))
  {
    ReadQuotedIs(f, "," + more);
    assert ("," + more)[1..] == more;
    assert ("\"" + (f + ("\"" + ("," + more))))[1..] == f + ("\"" + ("," + more));
  }

  lemma BareFieldLast(f: string)
    requires Bare(f)
    ensures ReadRecord(f) == Some([f])
  {
    ReadBareIs(f, "");
    assert f + "" == f;
    if f != "" { assert f[0] in f; }
  }

  lemma ThreeFields(t: string, n: string, p: string)
    requires Bare(t) && Bare(p)
    ensures Bare(n) ==> ReadRecord(t + ("," + (n + ("," + p)))) == Some([t, n, p])
    ensures '"' !in n ==> ReadRecord(t + ("," + ("\"" + (n + ("\"" + ("," + p)))))) == Some([t, n, p])
  {
    hide ReadRecord, Bare;
    assert [t] + ([n] + [p]) == [t, n, p];
    BareFieldLast(p);
    if Bare(n) {
      BareFieldThen(t, n + ("," + p));
      BareFieldThen(n, p);
    }
    if '"' !in n {
      BareFieldThen(t, "\"" + (n + ("\"" + ("," + p))));
      QuotedFieldThen(n, p);
    }
  }

  lemma {:induction false} JoinedHas(refs: seq<string>, c: char)
    requires c != ',' && forall r | r in refs :: c !in r
    ensures c !in Join(refs, ',')
  {
    if |refs| > 1 { JoinedHas(refs[1..], c); }
  }

  // The three fields the builder should see.
  function Expected(refs: seq<string>): seq<string> {
    ["type=image", "name=" + Join(refs, ','), "push=true"]
  }

  lemma ArgReadsBack(refs: seq<string>)
    requires refs != [] && forall r | r in refs :: ',' !in r && '"' !in r
    requires |refs| == 1 ==> '\n' !in refs[0]
    ensures ReadRecord(ImageOutputArg(refs)) == Some(Expected(refs))
  {
    hide ReadRecord, ImageOutputArg, Bare;
    var t, n, p := "type=image", "name=" + Join(refs, ','), "push=true";
    JoinedHas(refs, '"');
    assert '"' !in n;
    BareParts(refs);
    ThreeFields(t, n, p);
    ArgText(refs);
  }

  lemma BareParts(refs: seq<string>)
    requires refs != [] && forall r | r in refs :: ',' !in r && '"' !in r
    ensures Bare("type=image") && Bare("push=true")
    ensures |refs| == 1 && '\n' !in refs[0] ==> Bare("name=" + Join(refs, ','))
  {
    assert refs[0] in refs;
  }

  lemma ArgText(refs: seq<string>)
    requires refs != []
    ensures var t, n, p := "type=image", "name=" + Join(refs, ','), "push=true";
            ImageOutputArg(refs) ==
            t + ("," + if |refs| == 1 then n + ("," + p) else "\"" + (n + ("\"" + ("," + p))))
  {
    hide Join;
    Literals();
    if |refs| == 1 {
      JoinOne(refs);
      Regroup("type=image", ",", "", "name=", Join(refs, ','), "," + "push=true");
    } else {
      Regroup("type=image", ",", "\"", "name=", Join(refs, ','), "\"" + ("," + "push=true"));
    }
  }

  lemma Literals()
    ensures "," + "push=true" == ",push=true" && "\"" + ("," + "push=true") == "\",push=true"
    ensures "type=image" + "," + "" + "name=" == "type=image,name="
    ensures "type=image" + "," + "\"" + "name=" == "type=image,\"name="
  {
  }

  lemma JoinOne(refs: seq<string>)
    requires |refs| == 1
    ensures Join(refs, ',') == refs[0]
  {
  }

  lemma Regroup(a: string, b: string, q: string, c: string, x: string, z: string)
    ensures a + (b + (q + ((c + x) + z))) == (a + b + q + c) + x + z
    ensures q == "" ==> a + (b + ((c + x) + z)) == (a + b + q + c) + x + z
  {
    assert q == "" ==> q + ((c + x) + z) == (c + x) + z;
  }

  lemma {:induction false} BareStopsAtNewline(f: string, rest: string)
    requires '\n' in f && forall c | c in f :: c != ',' && c != '"'
    ensures ReadBare(f + rest).Some? && ReadBare(f + rest).value.1 != ""
    ensures ReadBare(f + rest).value.1[0] == '\n'
  {
    if f[0] != '\n' {
      assert (f + rest)[1..] == f[1..] + rest;
      assert f[0] in f && forall c | c in f[1..] :: c in f;
      BareStopsAtNewline(f[1..], rest);
    }
  }

  /** For every non-empty list of references without commas or quotes, the argument reads as one record of
      three fields whose name list splits back to the references; the one exception is a single reference
      with a line feed, which is written without quotes. */
  lemma OutputArgRoundTripIff(refs: seq<string>)
    requires refs != [] && forall r | r in refs :: ',' !in r && '"' !in r
    ensures ReadRecord(ImageOutputArg(refs)) == Some(Expected(refs)) <==> |refs| > 1 || '\n' !in refs[0]
    ensures Split(Expected(refs)[1][5..], ',') == refs
  {
    assert Expected(refs)[1][5..] == Join(refs, ',');
    SplitOfJoin(refs, ',');
    if |refs| > 1 || '\n' !in refs[0] {
      ArgReadsBack(refs);
    } else {
      BrokenRefFails(refs[0]);
      assert refs == [refs[0]];
    }
  }

  lemma BrokenRefFails(ref: string)
    requires '\n' in ref && ',' !in ref && '"' !in ref
    ensures ReadRecord(ImageOutputArg([ref])) == None
  {
    var name := "name=" + ref;
    var rest := name + ",push=true";
    assert ImageOutputArg([ref]) == "type=image" + ("," + rest);
    BareFieldThen("type=image", rest);
    assert '\n' in ref && '\n' in name;
    BareStopsAtNewline(name, ",push=true");
    assert ReadRecord(rest) == None;
  }

  // ---------------------------------------------------------------------------------------------
  // References.
  // ---------------------------------------------------------------------------------------------

  const HARBOR_PROJECT := "runos-apps"

  // strings.LastIndex of a character
  function LastIndex(s: string, c: char): (i: int)
    ensures -1 <= i < |s|
    ensures i == -1 <==> c !in s
    ensures i >= 0 ==> s[i] == c && c !in s[i + 1..]
  {
    if s == "" then -1
    else if s[|s| - 1] == c then |s| - 1
    else
      var init := s[..|s| - 1];
      var i := LastIndex(init, c);
      assert s == init + [s[|s| - 1]];
      assert i >= 0 ==> s[i + 1..] == init[i + 1..] + [s[|s| - 1]];
      i
  }

  function CacheRefForPushRef(pushRef: string): string {
    var i := LastIndex(pushRef, ':');
    (if i > LastIndex(pushRef, '/') then pushRef[..i] else pushRef) + ":buildcache"
  }

  function TargetImageRef(registry: string, repo: string, tag: string): string {
    registry + "/" + HARBOR_PROJECT + "/" + repo + ":" + tag
  }

  method TargetImageRefs(registry: string, repo: string, tags: seq<string>) returns (refs: seq<string>)
    ensures |refs| == |tags|
    ensures forall i | 0 <= i < |tags| :: refs[i] == TargetImageRef(registry, repo, tags[i])
  {
    refs := [];
    for i := 0 to |tags|
      invariant |refs| == i
      invariant forall k | 0 <= k < i :: refs[k] == TargetImageRef(registry, repo, tags[k])
    {
      refs := refs + [TargetImageRef(registry, repo, tags[i])];
    }
  }

  lemma LastIndexAtLeast(s: string, c: char, i: nat)
    requires i < |s| && s[i] == c
    ensures i <= LastIndex(s, c)
  {
    var k := LastIndex(s, c);
    assert c in s;
    assert forall x | k < x < |s| :: s[x] == s[k + 1..][x - k - 1];
  }

  lemma LastIndexIs(s: string, c: char, i: nat)
    requires i < |s| && s[i] == c && c !in s[i + 1..]
    ensures LastIndex(s, c) == i
  {
    LastIndexAtLeast(s, c, i);
    assert forall x | i < x < |s| :: s[x] == s[i + 1..][x - i - 1];
  }

  lemma LastIndexBefore(a: string, b: string, c: char)
    requires c !in b
    ensures LastIndex(a + b, c) < |a|
  {
    assert forall x | |a| <= x < |a + b| :: (a + b)[x] == b[x - |a|];
  }

  // A reference whose tag holds no separator keeps everything before its colon.
  lemma CacheRefOfTagged(base: string, tag: string)
    requires ':' !in tag && '/' !in tag
    ensures CacheRefForPushRef(base + (":" + tag)) == base + ":buildcache"
  {
    var s := base + (":" + tag);
    assert s[|base| + 1..] == tag;
    LastIndexIs(s, ':', |base|);
    LastIndexBefore(base, ":" + tag, '/');
    assert s[..|base|] == base;
  }

  /** All references made for one repository share its cache reference, and a reference does so if and only
      if its tag holds neither a colon nor a slash. */
  lemma CacheRefIsSharedIff(registry: string, repo: string, tag: string)
    ensures var shared := registry + "/" + "runos-apps" + "/" + repo + ":buildcache";
            CacheRefForPushRef(TargetImageRef(registry, repo, tag)) == shared <==> ':' !in tag && '/' !in tag
  {
    var base := registry + "/" + HARBOR_PROJECT + "/" + repo;
    var ref := TargetImageRef(registry, repo, tag);
    assert ref == base + (":" + tag);
    if ':' !in tag && '/' !in tag {
      CacheRefOfTagged(base, tag);
    } else {
      CacheRefKeepsMore(base, tag);
    }
  }

  lemma CacheRefKeepsMore(base: string, tag: string)
    requires ':' in tag || '/' in tag
    ensures CacheRefForPushRef(base + (":" + tag)) != base + ":buildcache"
  {
    hide LastIndex;
    var s := base + (":" + tag);
    var i, j := LastIndex(s, ':'), LastIndex(s, '/');
    assert s[|base|] == ':';
    LastIndexAtLeast(s, ':', |base|);
    var k :| 0 <= k < |tag| && (tag[k] == ':' || tag[k] == '/');
    LastIndexAtLeast(s, tag[k], |base| + 1 + k);
    if i > j {
      assert i > |base|;
      assert |CacheRefForPushRef(s)| == i + |":buildcache"|;
    } else {
      assert |CacheRefForPushRef(s)| == |s| + |":buildcache"|;
    }
  }

  /** The cache reference of a cache reference is itself. */
  lemma CacheRefIsIdempotent(ref: string)
    ensures CacheRefForPushRef(CacheRefForPushRef(ref)) == CacheRefForPushRef(ref)
  {
    var i := LastIndex(ref, ':');
    var base := if i > LastIndex(ref, '/') then ref[..i] else ref;
    assert ":" + "buildcache" == ":buildcache";
    CacheRefOfTagged(base, "buildcache");
  }
}
