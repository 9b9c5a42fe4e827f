/** The rule for a sysroot in plain terms: paths by how they begin and end, owners by what they
    list, and the packages whose headers count as a least set. */
module SysrootLaws {
  import opened Paths
  import opened Records
  import opened Worklist
  import opened Closure
  import opened Sysroot

  predicate EndsIn(p: string, suffix: string) {
    exists n :: 0 <= n <= |p| && p[n..] == suffix
  }

  lemma EndsInIs(p: string, suffix: string)
    ensures EndsIn(p, suffix) <==> EndsWith(p, suffix)
  {
    if EndsWith(p, suffix) {
      assert p[|p| - |suffix|..] == suffix;
    }
    if EndsIn(p, suffix) {
      var n :| 0 <= n <= |p| && p[n..] == suffix;
      assert n == |p| - |suffix|;
    }
  }

  /** What a configure script looks for. */
  predicate Header(p: string) {
    "usr/include/" <= p || EndsIn(p, ".pc") || EndsIn(p, ".m4") || EndsIn(p, ".cmake")
  }

  /** A program that prints where its own tree is. */
  predicate ConfigProgram(p: string) {
    "usr/bin/" <= p && EndsIn(p, "-config")
  }

  lemma HeaderIs(p: string)
    ensures Header(p) <==> BuildsAgainst(p)
    ensures ConfigProgram(p) <==> IsConfig(p)
  {
    EndsInIs(p, ".pc");
    EndsInIs(p, ".m4");
    EndsInIs(p, ".cmake");
    EndsInIs(p, "-config");
  }

  /** The name after the last slash. */
  predicate LastName(p: string, c: string) {
    '/' !in c && EndsIn(p, c) && (|c| < |p| ==> p[|p| - |c| - 1] == '/')
  }

  lemma {:induction false} FindIs(s: string, pat: string)
    ensures match Find(s, pat)
      case Some(i) => s[i..i + |pat|] == pat && forall j :: 0 <= j < i ==> !(pat <= s[j..])
      case None => forall j :: 0 <= j <= |s| ==> !(pat <= s[j..])
    decreases |s|
  {
    if !(pat <= s) && s != [] {
      FindIs(s[1..], pat);
      forall j | 0 < j <= |s| ensures s[j..] == s[1..][j - 1..] {
      }
    }
    assert s[0..] == s;
  }

  lemma {:induction false} BaseNameIs(p: string)
    ensures LastName(p, BaseName(p))
    decreases |p|
  {
    if '/' in p {
      FindIs(p, "/");
      var k :| 0 <= k < |p| && p[k] == '/';
      assert "/" <= p[k..];
      var i := Find(p, "/").value;
      assert p[i] == p[i..i + 1][0] == '/';
      var rest := p[i + 1..];
      BaseNameIs(rest);
      var n :| 0 <= n <= |rest| && rest[n..] == BaseName(rest);
      assert p[i + 1 + n..] == rest[n..];
    } else {
      assert p[0..] == p;
    }
  }

  lemma NoLonger(p: string, c: string, d: string)
    requires LastName(p, c) && LastName(p, d)
    ensures |c| <= |d|
  {
    var m := |p| - |c|;
    assert p[m..] == c;
    assert forall k :: m <= k < |p| ==> p[k] == c[k - m];
  }

  lemma LastNameOnce(p: string, c: string, d: string)
    requires LastName(p, c) && LastName(p, d)
    ensures c == d
  {
    NoLonger(p, c, d);
    NoLonger(p, d, c);
    assert p[|p| - |c|..] == c && p[|p| - |d|..] == d;
  }

  /** Where an entry's bytes come from: the unpruned copy of a library, if the manifest has one
      by its name, and otherwise the entry's own path. */
  ghost predicate ComesFrom(manifest: seq<TextEntry>, e: TextEntry, from: string) {
    exists c :: LastName(e.path, c) &&
      var full := "usr/lib/kiry/prune/" + c;
      from == if e.kind.File? && !("usr/lib/kiry/prune/" <= e.path) && (exists f :: f in manifest && f.path == full) then full else e.path
  }

  lemma SourceIs(manifest: seq<TextEntry>, e: TextEntry, from: string)
    ensures ComesFrom(manifest, e, from) <==> from == Source(manifest, e)
  {
    var c := BaseName(e.path);
    BaseNameIs(e.path);
    forall d | LastName(e.path, d) ensures d == c {
      LastNameOnce(e.path, c, d);
    }
    var full := "usr/lib/kiry/prune/" + c;
    assert Ships(manifest, full) <==> exists f :: f in manifest && f.path == full;
  }

  // ----------------------------------------------------------------------- who has what

  /** A `.pc` file is named for what it provides. */
  predicate PcFor(p: string, n: string) {
    EndsIn(p, ".pc") && LastName(p[..|p| - 3], n)
  }

  lemma PcForIs(p: string, n: string)
    requires |p| >= 3 || !EndsIn(p, ".pc")
    ensures (|p| >= 3 && PcFor(p, n)) <==> PcName(p) == Some(n)
  {
    EndsInIs(p, ".pc");
    if EndsWith(p, ".pc") {
      var front := p[..|p| - 3];
      BaseNameIs(front);
      if LastName(front, n) {
        LastNameOnce(front, n, BaseName(front));
      }
    }
  }

  /** Where a text first has another in it. */
  predicate FirstIn(s: string, pat: string, i: nat) {
    i <= |s| && pat <= s[i..] && forall j :: 0 <= j < i ==> !(pat <= s[j..])
  }

  lemma FindFirst(s: string, pat: string, i: nat)
    ensures FirstIn(s, pat, i) <==> Find(s, pat) == Some(i)
  {
    FindIs(s, pat);
    if Find(s, pat).Some? {
      var k := Find(s, pat).value;
      assert pat <= s[k..];
      assert FirstIn(s, pat, i) ==> i == k;
    }
  }

  /** The part of a path between its first `/cmake/` and the next, or the end. */
  ghost predicate CmakePart(p: string, u: string) {
    exists i: nat :: FirstIn(p, "/cmake/", i) && i + 7 <= |p| && CmakeField(p[i + 7..], u)
  }

  ghost predicate CmakeField(rest: string, u: string) {
    || (u == rest && forall j: nat :: !FirstIn(rest, "/cmake/", j))
    || exists j: nat :: FirstIn(rest, "/cmake/", j) && u == rest[..j]
  }

  lemma CmakePartIs(p: string, u: string)
    ensures CmakePart(p, u) <==> UnderCmake(p) == Some(u)
  {
    forall i: nat ensures FirstIn(p, "/cmake/", i) <==> Find(p, "/cmake/") == Some(i) {
      FindFirst(p, "/cmake/", i);
    }
    if Find(p, "/cmake/").Some? {
      var rest := p[Find(p, "/cmake/").value + 7..];
      forall j: nat ensures FirstIn(rest, "/cmake/", j) <==> Find(rest, "/cmake/") == Some(j) {
        FindFirst(rest, "/cmake/", j);
      }
    }
  }

  /** A cmake package is a directory there, with the one file in it that is named after it. */
  ghost predicate CmakeFor(p: string, d: string) {
    exists file :: '/' !in d && CmakePart(p, d + "/" + file) && NamedAfter(file, d)
  }

  lemma SlashAfter(u: string, d: string, file: string)
    requires '/' !in d && u == d + "/" + file
    ensures Find(u, "/") == Some(|d|) && u[..|d|] == d && u[|d| + 1..] == file
  {
    assert u[|d|..] == "/" + file;
    forall j | 0 <= j < |d| ensures !("/" <= u[j..]) {
      assert u[j..][0] == d[j];
    }
    FindFirst(u, "/", |d|);
  }

  lemma SlashAt(u: string, i: nat)
    requires Find(u, "/") == Some(i)
    ensures i < |u| && u == u[..i] + "/" + u[i + 1..] && '/' !in u[..i]
  {
    FindFirst(u, "/", i);
    assert u[i..][0] == '/';
    forall j | 0 <= j < i ensures u[j] != '/' {
      assert u[j..][0] == u[j] && !("/" <= u[j..]);
    }
  }

  ghost predicate NamedAfter(file: string, d: string) {
    file == d + "Config.cmake" || SameIgnoringCase(file, d + "-config.cmake")
  }

  lemma CmakeNamed(p: string, u: string, d: string, file: string)
    requires CmakePart(p, u) && u == d + "/" + file && '/' !in d && NamedAfter(file, d)
    ensures CmakeName(p) == Some(d)
  {
    CmakePartIs(p, u);
    SlashAfter(u, d, file);
  }

  lemma CmakeForIs(p: string, d: string)
    ensures CmakeFor(p, d) <==> CmakeName(p) == Some(d)
  {
    if CmakeFor(p, d) {
      var file :| '/' !in d && CmakePart(p, d + "/" + file) && NamedAfter(file, d);
      CmakeNamed(p, d + "/" + file, d, file);
    }
    if CmakeName(p) == Some(d) {
      var u := UnderCmake(p).value;
      var i := Find(u, "/").value;
      CmakePartIs(p, u);
      SlashAt(u, i);
      assert CmakePart(p, d + "/" + u[i + 1..]) && NamedAfter(u[i + 1..], d);
    }
  }

  /** Some file of the package is the one for the name. */
  ghost predicate Provides(r: Root, t: string, name: string, sort: Sort, n: string) {
    Key(t, name) in r.db && exists e :: e in r.db[Key(t, name)].manifest && NameIn(sort, e.path) == Some(n)
  }

  /** The first of the packages listed for a target that provides the name. */
  ghost predicate FirstToHave(r: Root, t: string, sort: Sort, n: string, name: string) {
    exists i :: 0 <= i < |ListedOf(r, t)| && ListedOf(r, t)[i] == name && Provides(r, t, name, sort, n)
      && forall j :: 0 <= j < i ==> !Provides(r, t, ListedOf(r, t)[j], sort, n)
  }

  lemma {:induction false} FirstWithIs(r: Root, t: string, names: seq<string>, sort: Sort, n: string, name: string)
    ensures FirstWith(r, t, names, sort, n) == Some(name) <==>
      exists i :: 0 <= i < |names| && names[i] == name && Provides(r, t, name, sort, n) && forall j :: 0 <= j < i ==> !Provides(r, t, names[j], sort, n)
    decreases |names|
  {
    if names != [] {
      assert Has(r, t, names[0], sort, n) <==> Provides(r, t, names[0], sort, n);
      FirstWithIs(r, t, names[1..], sort, n, name);
      if Has(r, t, names[0], sort, n) {
        if i :| 0 <= i < |names| && names[i] == name && Provides(r, t, name, sort, n) && forall j :: 0 <= j < i ==> !Provides(r, t, names[j], sort, n) {
          assert i == 0;
        }
      } else {
        FirstLater(r, t, names, sort, n, name);
      }
    }
  }

  lemma FirstLater(r: Root, t: string, names: seq<string>, sort: Sort, n: string, name: string)
    requires names != [] && !Provides(r, t, names[0], sort, n)
    ensures var rest := names[1..];
      (exists i :: 0 <= i < |names| && names[i] == name && Provides(r, t, name, sort, n) && forall j :: 0 <= j < i ==> !Provides(r, t, names[j], sort, n))
      <==> (exists i :: 0 <= i < |rest| && rest[i] == name && Provides(r, t, name, sort, n) && forall j :: 0 <= j < i ==> !Provides(r, t, rest[j], sort, n))
  {
    var rest := names[1..];
    if i :| 0 <= i < |names| && names[i] == name && Provides(r, t, name, sort, n) && forall j :: 0 <= j < i ==> !Provides(r, t, names[j], sort, n) {
      assert i > 0 && rest[i - 1] == name;
      forall j | 0 <= j < i - 1 ensures !Provides(r, t, rest[j], sort, n) {
        assert rest[j] == names[j + 1];
      }
    }
    if i :| 0 <= i < |rest| && rest[i] == name && Provides(r, t, name, sort, n) && forall j :: 0 <= j < i ==> !Provides(r, t, rest[j], sort, n) {
      assert names[i + 1] == name;
      forall j | 0 <= j < i + 1 ensures !Provides(r, t, names[j], sort, n) {
        if j > 0 {
          assert names[j] == rest[j - 1];
        }
      }
    }
  }

  /** A file states requirements by its name alone. */
  predicate StatesCmake(p: string) {
    EndsIn(p, "Config.cmake") || EndsIn(p, "-config.cmake") || EndsIn(p, "Dependencies.cmake")
  }

  /** A file asks for a name as it states requirements, and a package is the first to have it. */
  ghost predicate Answers(r: Root, t: string, p: string, n: string, name: string) {
    || (StatesCmake(p) && FirstToHave(r, t, Cmake, n, name))
    || (!StatesCmake(p) && EndsIn(p, ".pc") && FirstToHave(r, t, Pc, n, name))
  }

  ghost predicate EntryAsks(r: Root, k: Key, b: Key, e: TextEntry) {
    b.target == k.target && exists n :: n in r.needs(e.path) && Answers(r, k.target, e.path, n, b.name)
  }

  /** The package `k` has a file that asks for a name, and `b` is the first of its target to have
      that. */
  ghost predicate AsksPackage(r: Root, k: Key, b: Key) {
    k in r.db && exists e :: e in r.db[k].manifest && EntryAsks(r, k, b, e)
  }

  lemma SortIs(p: string)
    ensures SortOf(p) == if StatesCmake(p) then Some(Cmake) else if EndsIn(p, ".pc") then Some(Pc) else None
  {
    EndsInIs(p, "Config.cmake");
    EndsInIs(p, "-config.cmake");
    EndsInIs(p, "Dependencies.cmake");
    EndsInIs(p, ".pc");
  }

  lemma OwnerIs(r: Root, t: string, sort: Sort, n: string, b: Key)
    ensures b in OwnerKey(r, t, sort, n) <==> b.target == t && FirstToHave(r, t, sort, n, b.name)
  {
    FirstWithIs(r, t, ListedOf(r, t), sort, n, b.name);
  }

  lemma {:induction false} OwnersAre(r: Root, t: string, sort: Sort, need: seq<string>, b: Key)
    ensures b in Owners(r, t, sort, need) <==> b.target == t && exists n :: n in need && FirstToHave(r, t, sort, n, b.name)
    decreases |need|
  {
    if need != [] {
      var front, last := need[..|need| - 1], need[|need| - 1];
      OwnersAre(r, t, sort, front, b);
      OwnerIs(r, t, sort, last, b);
      assert forall n :: n in need <==> n in front || n == last;
    }
  }

  lemma {:induction false} RequirementsAre(r: Root, t: string, manifest: seq<TextEntry>, b: Key)
    ensures b in Requirements(r, t, manifest) <==> exists e :: e in manifest && b in AsksFor(r, t, e.path)
    decreases |manifest|
  {
    if manifest != [] {
      var front, last := manifest[..|manifest| - 1], manifest[|manifest| - 1];
      RequirementsAre(r, t, front, b);
      assert forall e :: e in manifest <==> e in front || e == last;
    }
  }

  lemma AsksAre(r: Root, k: Key, b: Key)
    ensures AsksPackage(r, k, b) <==> Edge(DevGraph(r), k, b)
  {
    if k in r.db {
      var manifest := r.db[k].manifest;
      RequirementsAre(r, k.target, manifest, b);
      forall e | e in manifest ensures b in AsksFor(r, k.target, e.path) <==> EntryAsks(r, k, b, e) {
        EntryAsksIs(r, k, b, e);
      }
    }
  }

  lemma EntryAsksIs(r: Root, k: Key, b: Key, e: TextEntry)
    ensures b in AsksFor(r, k.target, e.path) <==> EntryAsks(r, k, b, e)
  {
    SortIs(e.path);
    OwnersAre(r, k.target, Cmake, r.needs(e.path), b);
    OwnersAre(r, k.target, Pc, r.needs(e.path), b);
  }

  /** A set with the direct members and, with every package, those its files ask for. */
  ghost predicate HoldsAsked(r: Root, ms: seq<Member>, s: set<Key>) {
    && (forall m :: m in ms && m.direct ==> Key(m.target, m.name) in s)
    && (forall k, b :: k in s && AsksPackage(r, k, b) ==> b in s)
  }

  /** The packages whose headers count are the least such set. */
  lemma DevLeast(r: Root, ms: seq<Member>, dev: set<Key>)
    requires forall k :: Dev(r, ms, k) <==> k in dev
    ensures HoldsAsked(r, ms, dev) && forall s :: HoldsAsked(r, ms, s) ==> dev <= s
  {
    var g, seeds := DevGraph(r), DirectSet(ms);
    forall m | m in ms && m.direct ensures Key(m.target, m.name) in dev {
      assert m.At() in seeds;
      SeedReachable(g, seeds, m.At());
      assert Dev(r, ms, m.At());
    }
    forall k, b | k in dev && AsksPackage(r, k, b) ensures b in dev {
      AsksAre(r, k, b);
      assert Dev(r, ms, k);
      EdgeReachable(g, seeds, k, b);
      assert Dev(r, ms, b);
    }
    forall s | HoldsAsked(r, ms, s) ensures dev <= s {
      forall a, b | a in s && Edge(g, a, b) ensures b in s {
        AsksAre(r, a, b);
      }
      ReachableLeast(g, seeds, s);
    }
  }

  // --------------------------------------------------------------------------- the rule

  /** A member gives its whole manifest if its headers count, and otherwise all but headers and,
      for another target, programs that print where their tree is; and all that is kept for it.
      A package that is no member gives headers. */
  ghost predicate MayStand(r: Root, target: string, ms: seq<Member>, dev: set<Key>, p: Placed) {
    && p.owner in r.db
    && if exists m :: m in ms && m.target == p.owner.target && m.name == p.owner.name then
         || (p.entry in r.db[p.owner].manifest && ComesFrom(r.db[p.owner].manifest, p.entry, p.from)
             && (p.owner in dev || !(Header(p.entry.path) || (p.owner.target != target && ConfigProgram(p.entry.path)))))
         || (p.owner in r.kept && p.entry in r.kept[p.owner] && p.from == p.entry.path)
       else p.owner in dev && p.entry in r.db[p.owner].manifest && Header(p.entry.path) && p.from == p.entry.path
  }

  /** What is allowed is just that. */
  lemma AllowedIs(r: Root, target: string, ms: seq<Member>, dev: set<Key>, p: Placed)
    requires forall k :: Dev(r, ms, k) <==> k in dev
    ensures Allowed(r, target, ms, p) <==> MayStand(r, target, ms, dev, p)
  {
    HeaderIs(p.entry.path);
    if p.owner in r.db {
      SourceIs(r.db[p.owner].manifest, p.entry, p.from);
    }
    assert IsMember(ms, p.owner) <==> exists m :: m in ms && m.target == p.owner.target && m.name == p.owner.name;
  }
}
