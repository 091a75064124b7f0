/**
 Lexical path resolution: how a reference in a manifest is anchored at the manifest's directory and confined
 to the clone. Paths are strings, as in the source; the partner of every string operation is the location a
 path denotes, a rooted flag and a list of components.
 */
module Paths {
  import opened Options
  import opened GoStrings

  // ---------------------------------------------------------------------------------------------
  // Locations.
  // ---------------------------------------------------------------------------------------------

  datatype Loc = Loc(rooted: bool, comps: seq<string>)

  // A component that stays in a cleaned path.
  predicate Solid(c: string) {
    c != "" && c != "." && '/' !in c
  }

  predicate AllSolid(cs: seq<string>) {
    forall c | c in cs :: Solid(c)
  }

  // One component after a cleaned prefix: `..` takes back the last name, stays at the root, and is kept
  // where there is no name to take back.
  function Push(rooted: bool, stack: seq<string>, c: string): seq<string> {
    if c != ".." then stack + [c]
    else if stack != [] && stack[|stack| - 1] != ".." then stack[..|stack| - 1]
    else if rooted then stack
    else stack + [c]
  }

  function Walk(rooted: bool, start: seq<string>, cs: seq<string>): seq<string> {
    if cs == [] then start
    else Push(rooted, Walk(rooted, start, cs[..|cs| - 1]), cs[|cs| - 1])
  }

  function Filter(parts: seq<string>): (cs: seq<string>)
    requires forall p | p in parts :: '/' !in p
    ensures AllSolid(cs)
  {
    if parts == [] then []
    else (if parts[0] == "" || parts[0] == "." then [] else [parts[0]]) + Filter(parts[1..])
  }

  function Comps(p: string): (cs: seq<string>)
    ensures AllSolid(cs)
  {
    Filter(Split(p, '/'))
  }

  predicate Rooted(p: string) {
    p != "" && p[0] == '/'
  }

  function LocOf(p: string): Loc {
    Loc(Rooted(p), Walk(Rooted(p), [], Comps(p)))
  }

  function Render(l: Loc): string {
    if l.rooted then "/" + Join(l.comps, '/') else if l.comps == [] then "." else Join(l.comps, '/')
  }

  // ---------------------------------------------------------------------------------------------
  // The operations of path/filepath on a slash-separated system, and the source's own.
  // ---------------------------------------------------------------------------------------------

  function Clean(p: string): string {
    Render(LocOf(p))
  }

  // filepath.Join of two elements: empty elements are left out.
  function JoinPaths(a: string, b: string): string {
    if a != "" then Clean(a + "/" + b) else if b != "" then Clean(b) else ""
  }

  function Common(a: seq<string>, b: seq<string>): (k: nat)
    ensures k <= |a| && k <= |b| && a[..k] == b[..k]
  {
    if a != [] && b != [] && a[0] == b[0] then 1 + Common(a[1..], b[1..]) else 0
  }

  function Ups(n: nat): (us: seq<string>)
    ensures |us| == n && AllSolid(us)
  {
    if n == 0 then [] else Ups(n - 1) + [".."]
  }

  // filepath.Rel
  function Rel(base: string, target: string): Option<string> {
    var b, t := LocOf(base), LocOf(target);
    var k := Common(b.comps, t.comps);
    if b.rooted != t.rooted || (k < |b.comps| && b.comps[k] == "..") then None
    else Some(Render(Loc(false, Ups(|b.comps| - k) + t.comps[k..])))
  }

  function RelTo(parent: string, child: string): string {
    match Rel(parent, child)
    case None => Clean(child)
    case Some(r) => r
  }

  predicate HasPrefix(s: string, p: string) {
    |p| <= |s| && s[..|p|] == p
  }

  function ResolveInsideWorkdir(workdir: string, rel: string): Option<string> {
    if Rooted(rel) then None
    else
      var cleaned := Clean(JoinPaths(workdir, rel));
      var top := Clean(workdir);
      if cleaned != top && !HasPrefix(cleaned, top + "/") then None else Some(cleaned)
  }

  // How a manifest's reference is resolved: relative to the manifest's directory, inside the workdir.
  function ResolveRef(workdir: string, configDir: string, ref: string): Option<string> {
    ResolveInsideWorkdir(workdir, JoinPaths(RelTo(workdir, configDir), ref))
  }

  // ---------------------------------------------------------------------------------------------
  // What the components of a composed path are.
  // ---------------------------------------------------------------------------------------------

  lemma {:induction false} FilterAppend(a: seq<string>, b: seq<string>)
    requires forall p | p in a + b :: '/' !in p
    ensures forall p | p in a :: p in a + b
    ensures forall p | p in b :: p in a + b
    ensures Filter(a + b) == Filter(a) + Filter(b)
  {
    if a == [] {
      assert a + b == b;
    } else {
      assert (a + b)[1..] == a[1..] + b;
      FilterAppend(a[1..], b);
    }
  }

  lemma {:induction false} FilterKeeps(cs: seq<string>)
    requires AllSolid(cs)
    ensures Filter(cs) == cs
  {
    if cs != [] {
      assert Solid(cs[0]);
      FilterKeeps(cs[1..]);
    }
  }

  lemma CompsAppend(a: string, b: string)
    ensures Comps(a + "/" + b) == Comps(a) + Comps(b)
    ensures a != "" ==> Rooted(a + "/" + b) == Rooted(a)
  {
    assert a + "/" + b == a + ['/'] + b;
    SplitAppend(a, b, '/');
    FilterAppend(Split(a, '/'), Split(b, '/'));
  }

  lemma CompsOfJoin(cs: seq<string>)
    requires AllSolid(cs) && cs != []
    ensures Comps(Join(cs, '/')) == cs && !Rooted(Join(cs, '/')) && Join(cs, '/') != ""
    ensures Split(Join(cs, '/'), '/') == cs
  {
    SplitOfJoin(cs, '/');
    FilterKeeps(cs);
    assert Solid(cs[0]);
    assert cs[0][0] in cs[0];
  }

  lemma CompsOfRender(l: Loc)
    requires AllSolid(l.comps)
    ensures Comps(Render(l)) == l.comps && Rooted(Render(l)) == l.rooted && Render(l) != ""
  {
    if l.comps == [] {
      assert Render(Loc(true, [])) == "" + "/" + "";
      CompsAppend("", "");
      assert Filter([""]) == [] && Filter(["."]) == [] && Split("", '/') == [""] && Split(".", '/') == ["."];
    } else {
      CompsOfJoin(l.comps);
      if l.rooted {
        assert Render(l) == "" + "/" + Join(l.comps, '/');
        CompsAppend("", Join(l.comps, '/'));
        assert Split("", '/') == [""] && Filter([""]) == [];
      }
    }
  }

  // ---------------------------------------------------------------------------------------------
  // Walking.
  // ---------------------------------------------------------------------------------------------

  lemma {:induction false} WalkAppend(rooted: bool, start: seq<string>, a: seq<string>, b: seq<string>)
    ensures Walk(rooted, start, a + b) == Walk(rooted, Walk(rooted, start, a), b)
    decreases |b|
  {
    if b == [] {
      assert a + b == a;
    } else {
      assert (a + b)[..|a + b| - 1] == a + b[..|b| - 1];
      WalkAppend(rooted, start, a, b[..|b| - 1]);
    }
  }

  lemma {:induction false} WalkSolid(rooted: bool, start: seq<string>, cs: seq<string>)
    requires AllSolid(start) && AllSolid(cs)
    ensures AllSolid(Walk(rooted, start, cs))
    decreases |cs|
  {
    if cs != [] { WalkSolid(rooted, start, cs[..|cs| - 1]); }
  }

  // Cleaning a relative path before following it does not change where it leads.
  lemma {:induction false} WalkOfClean(rooted: bool, start: seq<string>, cs: seq<string>)
    ensures Walk(rooted, start, Walk(false, [], cs)) == Walk(rooted, start, cs)
    decreases |cs|
  {
    if cs != [] {
      var s := Walk(false, [], cs[..|cs| - 1]);
      WalkOfClean(rooted, start, cs[..|cs| - 1]);
      WalkOfPush(rooted, start, s, cs[|cs| - 1]);
    }
  }

  lemma WalkOfPush(rooted: bool, start: seq<string>, s: seq<string>, c: string)
    ensures Walk(rooted, start, Push(false, s, c)) == Push(rooted, Walk(rooted, start, s), c)
  {
    if c == ".." && s != [] && s[|s| - 1] != ".." {
    } else {
      assert (s + [c])[..|s|] == s;
    }
  }

  // A cleaned list of components: any `..` comes first, and only below no root.
  predicate Normal(rooted: bool, cs: seq<string>) {
    forall i | 0 <= i < |cs| :: cs[i] == ".." ==> !rooted && forall j | 0 <= j < i :: cs[j] == ".."
  }

  lemma {:induction false} WalkIsNormal(rooted: bool, cs: seq<string>)
    ensures Normal(rooted, Walk(rooted, [], cs))
    decreases |cs|
  {
    if cs != [] { WalkIsNormal(rooted, cs[..|cs| - 1]); }
  }

  lemma {:induction false} WalkKeepsNormal(rooted: bool, cs: seq<string>, k: nat)
    requires Normal(rooted, cs) && k <= |cs|
    ensures Walk(rooted, cs[..k], cs[k..]) == cs
    decreases |cs|
  {
    if k < |cs| {
      var init := cs[..|cs| - 1];
      assert cs[k..][..|cs[k..]| - 1] == init[k..] && init[..k] == cs[..k];
      WalkKeepsNormal(rooted, init, k);
      assert cs == init + [cs[|cs| - 1]];
    } else {
      assert cs[..k] == cs && cs[k..] == [];
    }
  }

  lemma {:induction false} WalkUps(rooted: bool, cs: seq<string>, n: nat)
    requires n <= |cs| && forall i | |cs| - n <= i < |cs| :: cs[i] != ".."
    ensures Walk(rooted, cs, Ups(n)) == cs[..|cs| - n]
    decreases n
  {
    hide Walk, Push;
    if n == 0 {
      WalkNowhere(rooted, cs);
    } else {
      WalkUps(rooted, cs, n - 1);
      WalkUpOnce(rooted, cs, Ups(n - 1), cs[..|cs| - n + 1]);
      assert cs[..|cs| - n + 1][..|cs| - n] == cs[..|cs| - n];
    }
  }

  lemma WalkNowhere(rooted: bool, cs: seq<string>)
    ensures Walk(rooted, cs, Ups(0)) == cs == cs[..|cs|]
  {
  }

  lemma WalkUpOnce(rooted: bool, start: seq<string>, steps: seq<string>, at: seq<string>)
    requires Walk(rooted, start, steps) == at && at != [] && at[|at| - 1] != ".."
    ensures Walk(rooted, start, steps + [".."]) == at[..|at| - 1]
  {
    assert (steps + [".."])[..|steps|] == steps;
  }

  // ---------------------------------------------------------------------------------------------
  // Main results.
  // ---------------------------------------------------------------------------------------------

  lemma LocIsClean(p: string)
    ensures AllSolid(LocOf(p).comps) && Normal(LocOf(p).rooted, LocOf(p).comps)
  {
    WalkSolid(Rooted(p), [], Comps(p));
    WalkIsNormal(Rooted(p), Comps(p));
  }

  /** A cleaned path denotes the same location, two paths clean alike exactly when they denote the same
      location, and cleaning twice changes nothing. */
  lemma CleanDenotes(p: string, q: string)
    ensures LocOf(Clean(p)) == LocOf(p)
    ensures Clean(p) == Clean(q) <==> LocOf(p) == LocOf(q)
    ensures Clean(Clean(p)) == Clean(p)
  {
    CleanKeepsLoc(p);
    CleanKeepsLoc(q);
  }

  lemma CleanKeepsLoc(p: string)
    ensures LocOf(Clean(p)) == LocOf(p) && Clean(p) != ""
  {
    LocIsClean(p);
    var l := LocOf(p);
    CompsOfRender(l);
    WalkKeepsNormal(l.rooted, l.comps, 0);
    assert l.comps[..0] == [] && l.comps[0..] == l.comps;
  }

  lemma JoinDenotes(a: string, b: string)
    requires a != "" || !Rooted(b)
    ensures LocOf(JoinPaths(a, b)) == Loc(Rooted(a), Walk(Rooted(a), [], Comps(a) + Comps(b)))
  {
    assert Comps("") == [] by { assert Split("", '/') == [""] && Filter([""]) == []; }
    if a != "" {
      CompsAppend(a, b);
      CleanKeepsLoc(a + "/" + b);
    } else {
      assert Comps(a) + Comps(b) == Comps(b);
      if b != "" { CleanKeepsLoc(b); }
    }
  }

  // Where a relative path leads from a directory.
  function From(dir: string, rel: string): Loc {
    Loc(Rooted(dir), Walk(Rooted(dir), LocOf(dir).comps, Comps(rel)))
  }

  lemma JoinLeadsFrom(dir: string, rel: string)
    requires dir != "" || !Rooted(rel)
    ensures LocOf(JoinPaths(dir, rel)) == From(dir, rel)
  {
    JoinDenotes(dir, rel);
    WalkAppend(Rooted(dir), [], Comps(dir), Comps(rel));
  }

  predicate Inside(l: Loc, top: Loc) {
    l.rooted == top.rooted && top.comps <= l.comps
  }

  // The string test against the component test. They agree below every directory that has a component; of
  // the root and of the current directory the string test accepts nothing but the directory itself.
  lemma PrefixTest(l: Loc, top: Loc)
    requires AllSolid(l.comps) && AllSolid(top.comps) && l.rooted == top.rooted
    ensures Render(l) == Render(top) || HasPrefix(Render(l), Render(top) + "/") <==>
            Inside(l, top) && (top.comps != [] || l.comps == [])
  {
    hide Comps, Join, Render, Rooted, Solid;
    CompsOfRender(l);
    CompsOfRender(top);
    if HasPrefix(Render(l), Render(top) + "/") {
      var rest := Render(l)[|Render(top)| + 1..];
      assert Render(l) == Render(top) + "/" + rest;
      CompsAppend(Render(top), rest);
      if top.comps == [] { NoEmptyTop(l, rest); }
    } else if top.comps != [] && Inside(l, top) && l != top {
      RenderExtends(l, top);
    }
  }

  lemma RenderExtends(l: Loc, top: Loc)
    requires top.comps != [] && Inside(l, top) && l != top
    ensures HasPrefix(Render(l), Render(top) + "/")
  {
    var rest := l.comps[|top.comps|..];
    assert l.comps == top.comps + rest;
    JoinAppend(top.comps, rest, '/');
    assert Render(l) == Render(top) + "/" + Join(rest, '/');
  }

  lemma NoEmptyTop(l: Loc, rest: string)
    requires AllSolid(l.comps)
    ensures Render(l) != Render(Loc(l.rooted, [])) + "/" + rest
  {
    var e := if l.rooted then "" else ".";
    var other := Render(Loc(l.rooted, [])) + "/" + rest;
    if l.comps == [] {
      assert |Render(l)| == 1 && |other| >= 2;
    } else {
      var x := e + ['/'] + rest;
      SplitAppend(e, rest, '/');
      assert Split(e, '/') == [e];
      CompsOfJoin(l.comps);
      assert l.comps[0] != e by { assert Solid(l.comps[0]); }
      assert Join(l.comps, '/') != x;
      if l.rooted { assert Render(l)[1..] == Join(l.comps, '/') && other[1..] == x; }
    }
  }

  /** The workdir guard, for every workdir and every path: an absolute path is refused; of the others it accepts
      exactly those whose components extend the workdir's, except that below a workdir without components it
      accepts only the workdir; what it returns is the cleaned path. */
  lemma GuardAcceptsIff(workdir: string, rel: string)
    ensures rel != "" && rel[0] == '/' ==> ResolveInsideWorkdir(workdir, rel) == None
    ensures rel == "" || rel[0] != '/' ==>
              var l := From(workdir, rel);
              ResolveInsideWorkdir(workdir, rel) ==
              if Inside(l, LocOf(workdir)) && (LocOf(workdir).comps != [] || l.comps == [])
              then Some(Render(l)) else None
  {
    if Rooted(rel) { return; }
    var j := JoinPaths(workdir, rel);
    JoinLeadsFrom(workdir, rel);
    LocIsClean(j);
    LocIsClean(workdir);
    PrefixTest(LocOf(j), LocOf(workdir));
  }

  /** The guard is the component test for every relative path if and only if the workdir has a component. */
  lemma GuardIsContainmentIff(workdir: string)
    ensures (forall rel | !Rooted(rel) ::
               ResolveInsideWorkdir(workdir, rel).Some? <==> Inside(From(workdir, rel), LocOf(workdir)))
            <==> LocOf(workdir).comps != []
  {
    hide ResolveInsideWorkdir, LocOf, From, Inside;
    forall rel | !Rooted(rel)
      ensures LocOf(workdir).comps != [] ==>
                (ResolveInsideWorkdir(workdir, rel).Some? <==> Inside(From(workdir, rel), LocOf(workdir)))
    {
      GuardAcceptsIff(workdir, rel);
    }
    if LocOf(workdir).comps == [] {
      BareWorkdirRefuses(workdir);
      assert !(ResolveInsideWorkdir(workdir, "a").Some? <==> Inside(From(workdir, "a"), LocOf(workdir)));
    }
  }

  lemma BareWorkdirRefuses(workdir: string)
    requires LocOf(workdir).comps == []
    ensures !Rooted("a") && Inside(From(workdir, "a"), LocOf(workdir))
    ensures ResolveInsideWorkdir(workdir, "a").None?
  {
    hide Render, Split, Filter, ResolveInsideWorkdir;
    GuardAcceptsIff(workdir, "a");
    CompsOfJoin(["a"]);
    assert ["a"][..0] == [];
  }

  lemma RelDenotes(base: string, target: string)
    requires Rel(base, target).Some?
    ensures var r := Rel(base, target).value;
            !Rooted(r) && r != "" && From(base, r) == LocOf(target)
  {
    hide Comps, Join, Render, Walk, Push, LocOf, Normal;
    LocIsClean(base);
    LocIsClean(target);
    LocRooted(base);
    LocRooted(target);
    var b, t := LocOf(base), LocOf(target);
    var k := Common(b.comps, t.comps);
    var steps := Ups(|b.comps| - k) + t.comps[k..];
    CompsOfRender(Loc(false, steps));
    if k < |b.comps| { NamesAfterName(b.rooted, b.comps, k); }
    WalkBetween(t.rooted, b.comps, t.comps, k);
  }

  lemma LocRooted(p: string)
    ensures LocOf(p).rooted == Rooted(p)
  {
  }

  lemma NamesAfterName(rooted: bool, cs: seq<string>, k: nat)
    requires Normal(rooted, cs) && k < |cs| && cs[k] != ".."
    ensures forall i | k <= i < |cs| :: cs[i] != ".."
  {
  }

  lemma WalkBetween(rooted: bool, b: seq<string>, t: seq<string>, k: nat)
    requires Normal(rooted, t) && k <= |b| && k <= |t| && b[..k] == t[..k]
    requires forall i | k <= i < |b| :: b[i] != ".."
    ensures Walk(rooted, b, Ups(|b| - k) + t[k..]) == t
  {
    hide Push, Walk;
    WalkAppend(rooted, b, Ups(|b| - k), t[k..]);
    WalkUps(rooted, b, |b| - k);
    WalkKeepsNormal(rooted, t, k);
  }

  /** Resolving a reference through its path relative to the workdir gives what cleaning it against the
      manifest's directory gives, for every workdir, directory and reference between which a relative path
      exists; the result is accepted exactly when it lies inside the workdir. */
  lemma ResolveRefIsDirect(workdir: string, configDir: string, ref: string)
    requires configDir != "" && Rel(workdir, configDir).Some?
    ensures var direct := LocOf(configDir + "/" + ref);
            ResolveRef(workdir, configDir, ref) ==
            if Inside(direct, LocOf(workdir)) && (LocOf(workdir).comps != [] || direct.comps == [])
            then Some(Clean(configDir + "/" + ref)) else None
  {
    hide Split, Join, Filter, Push;
    var r := Rel(workdir, configDir).value;
    RelDenotes(workdir, configDir);
    JoinKeepsRelative(r, ref);
    var step := JoinPaths(r, ref);
    GuardAcceptsIff(workdir, step);
    RefLeadsFrom(workdir, configDir, r, ref);
  }

  lemma JoinKeepsRelative(r: string, ref: string)
    requires r != "" && !Rooted(r)
    ensures !Rooted(JoinPaths(r, ref))
    ensures Comps(JoinPaths(r, ref)) == Walk(false, [], Comps(r) + Comps(ref))
  {
    CompsAppend(r, ref);
    LocIsClean(r + "/" + ref);
    CompsOfRender(LocOf(r + "/" + ref));
  }

  lemma RefLeadsFrom(workdir: string, configDir: string, r: string, ref: string)
    requires configDir != "" && r != "" && !Rooted(r) && From(workdir, r) == LocOf(configDir)
    ensures From(workdir, JoinPaths(r, ref)) == LocOf(configDir + "/" + ref)
  {
    hide Split, Join, Filter, Push;
    var b := LocOf(workdir);
    JoinKeepsRelative(r, ref);
    WalkOfClean(b.rooted, b.comps, Comps(r) + Comps(ref));
    WalkAppend(b.rooted, b.comps, Comps(r), Comps(ref));
    CompsAppend(configDir, ref);
    WalkAppend(Rooted(configDir), [], Comps(configDir), Comps(ref));
  }

  /** Where no relative path exists because one path is rooted and the other is not: a rooted directory is refused,
      and a relative one is taken to lie below the workdir. */
  lemma MixedRootsResolve(workdir: string, configDir: string, ref: string)
    requires configDir != "" && Rooted(workdir) != Rooted(configDir)
    ensures Rooted(configDir) ==> ResolveRef(workdir, configDir, ref) == None
    ensures Rooted(workdir) ==>
              var l := Loc(true, Walk(true, LocOf(workdir).comps, Comps(configDir) + Comps(ref)));
              ResolveRef(workdir, configDir, ref) ==
              if Inside(l, LocOf(workdir)) && (LocOf(workdir).comps != [] || l.comps == []) then Some(Render(l)) else None
  {
    hide Split, Join, Filter, Push, Render, Comps, ResolveInsideWorkdir;
    LocRooted(workdir);
    LocRooted(configDir);
    var r := Clean(configDir);
    assert RelTo(workdir, configDir) == r;
    CleanKeepsLoc(configDir);
    LocRooted(r);
    var step := JoinPaths(r, ref);
    GuardAcceptsIff(workdir, step);
    if Rooted(configDir) {
      JoinLeadsFrom(r, ref);
      LocRooted(step);
    } else {
      JoinKeepsRelative(r, ref);
      CleanedSteps(workdir, configDir, ref);
    }
  }

  lemma CleanedSteps(workdir: string, configDir: string, ref: string)
    requires !Rooted(configDir)
    ensures var r := Clean(configDir);
            Walk(Rooted(workdir), LocOf(workdir).comps, Walk(false, [], Comps(r) + Comps(ref))) ==
            Walk(Rooted(workdir), LocOf(workdir).comps, Comps(configDir) + Comps(ref))
  {
    hide Split, Join, Filter, Push;
    var r, rooted, start := Clean(configDir), Rooted(workdir), LocOf(workdir).comps;
    LocIsClean(configDir);
    CompsOfRender(LocOf(configDir));
    WalkOfClean(rooted, start, Comps(r) + Comps(ref));
    WalkAppend(rooted, start, Comps(r), Comps(ref));
    WalkOfClean(rooted, start, Comps(configDir));
    WalkAppend(rooted, start, Comps(configDir), Comps(ref));
  }

  /** A relative path exists between any two rooted paths, and from a workdir to everything inside it. */
  lemma RelExists(workdir: string, configDir: string)
    requires (Rooted(workdir) && Rooted(configDir)) || Inside(LocOf(configDir), LocOf(workdir))
    ensures Rel(workdir, configDir).Some?
  {
    LocIsClean(workdir);
    var b, t := LocOf(workdir), LocOf(configDir);
    if b.comps <= t.comps { CommonOfPrefix(b.comps, t.comps); }
  }

  lemma {:induction false} CommonOfPrefix(a: seq<string>, b: seq<string>)
    requires a <= b
    ensures Common(a, b) == |a|
  {
    if a != [] { CommonOfPrefix(a[1..], b[1..]); }
  }

  /** The two resolutions that locate a build: the source directory against the manifest's directory, then
      the Dockerfile against the build context. What comes out is the Dockerfile's path written out from the
      manifest's directory, inside the workdir, and below a rooted workdir neither result has a `..` left. */
  lemma BuildPathsAreDirect(workdir: string, configDir: string, sourceDir: string, dockerfile: string)
    requires Inside(LocOf(configDir), LocOf(workdir)) && configDir != "" && LocOf(workdir).comps != []
    requires ResolveRef(workdir, configDir, sourceDir).Some?
    ensures var context := ResolveRef(workdir, configDir, sourceDir).value;
            var written := configDir + "/" + sourceDir + "/" + dockerfile;
            && context == Clean(configDir + "/" + sourceDir)
            && Inside(LocOf(context), LocOf(workdir))
            && ResolveRef(workdir, context, dockerfile) ==
               (if Inside(LocOf(written), LocOf(workdir)) then Some(Clean(written)) else None)
            && (Rooted(workdir) ==> ".." !in LocOf(context).comps && ".." !in LocOf(written).comps)
  {
    hide Split, Join, Filter, Push, Walk, Render, ResolveRef, Normal;
    RelExists(workdir, configDir);
    ResolveRefIsDirect(workdir, configDir, sourceDir);
    var first := configDir + "/" + sourceDir;
    var context := ResolveRef(workdir, configDir, sourceDir).value;
    assert context == Clean(first);
    CleanKeepsLoc(first);
    RelExists(workdir, context);
    ResolveRefIsDirect(workdir, context, dockerfile);
    SameStart(context, first, dockerfile);
    NoUps(context, workdir);
    CompsAppend(first, dockerfile);
    CompsAppend(configDir, sourceDir);
    NoUps(first + "/" + dockerfile, workdir);
  }

  lemma SameStart(a: string, b: string, rel: string)
    requires a != "" && b != "" && LocOf(a) == LocOf(b)
    ensures LocOf(a + "/" + rel) == LocOf(b + "/" + rel)
  {
    CompsAppend(a, rel);
    CompsAppend(b, rel);
    WalkAppend(Rooted(a), [], Comps(a), Comps(rel));
    WalkAppend(Rooted(b), [], Comps(b), Comps(rel));
  }

  lemma NoUps(p: string, workdir: string)
    requires Rooted(p) == Rooted(workdir)
    ensures Rooted(workdir) ==> ".." !in LocOf(p).comps
  {
    LocIsClean(p);
  }
}
