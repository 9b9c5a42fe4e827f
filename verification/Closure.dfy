/** The packages a build is given: those its recipe lists, the ones that go with every build, and
    all that these run on. `closure` in sandbox.rs. */
module Closure {
  import opened Paths
  import opened Records
  import opened Worklist

  /** An installed package: a name under a target. */
  datatype Key = Key(target: string, name: string)

  datatype Record = Record(depends: seq<Dep>, manifest: seq<TextEntry>)

  /** The host's triple, the toolchain file's names if it can be read, and the database; a key
      the database lacks is a record that cannot be read. */
  datatype World = World(host: string, toolchain: Option<seq<string>>, db: map<Key, Record>)

  datatype Member = Member(name: string, direct: bool, target: string) {
    function At(): Key { Key(target, name) }
  }

  predicate StartsWith(s: string, prefix: string) {
    prefix <= s
  }

  predicate EndsWith(s: string, suffix: string) {
    |suffix| <= |s| && s[|s| - |suffix|..] == suffix
  }

  /** The packages no link does without, each with its `make`. */
  function Substrate(target: string): seq<(string, bool)> {
    if EndsWith(target, "gnu") then [("glibc", false), ("gcc-runtime", false), ("gcc-stage1", true)]
    else [("musl", false)]
  }

  function ToolchainDeps(names: seq<string>): seq<Dep> {
    seq(|names|, i requires 0 <= i < |names| => Dep(names[i], true, true, None))
  }

  function Implicit(target: string): seq<Dep> {
    var s := Substrate(target);
    seq(|s|, i requires 0 <= i < |s| => Dep(s[i].0, s[i].1, s[i].1, None))
  }

  /** What the build gets whole. */
  function Declared(w: World, target: string, deps: seq<Dep>): seq<Dep>
    requires w.toolchain.Some?
  {
    ToolchainDeps(w.toolchain.value) + Implicit(target) + deps
  }

  function SeedKey(w: World, target: string, d: Dep): Key {
    Key(if d.host then w.host else target, d.name)
  }

  predicate IsConfig(path: string) {
    StartsWith(path, "usr/bin/") && EndsWith(path, "-config")
  }

  /** A package that ships programs. */
  predicate Tools(w: World, target: string, name: string) {
    var k := Key(target, name);
    k in w.db && exists e <- w.db[k].manifest :: StartsWith(e.path, "usr/bin/") && !IsConfig(e.path)
  }

  // ----------------------------------------------------------------------- the meaning

  function DirectKeys(w: World, target: string, deps: seq<Dep>): set<Key>
    requires w.toolchain.Some?
  {
    set d <- Declared(w, target, deps) :: SeedKey(w, target, d)
  }

  /** A target dependency whose programs only the host's build has. */
  predicate WantsTools(w: World, target: string, d: Dep) {
    target != w.host && !d.host && Tools(w, w.host, d.name) && !Tools(w, target, d.name)
  }

  function ToolKeys(w: World, target: string, deps: seq<Dep>): set<Key> {
    set d <- deps | WantsTools(w, target, d) :: Key(w.host, d.name)
  }

  function Seeds(w: World, target: string, deps: seq<Dep>): set<Key>
    requires w.toolchain.Some?
  {
    DirectKeys(w, target, deps) + ToolKeys(w, target, deps)
  }

  /** A runtime dependency is looked up for its own package's target. */
  function Runs(t: string, ds: seq<Dep>): set<Key> {
    set d <- ds | !d.make :: Key(t, d.name)
  }

  ghost function RunGraph(w: World): Graph<Key> {
    map k | k in w.db.Keys :: Runs(k.target, w.db[k].depends)
  }

  /** Needed to build: a seed, or reached from one over runtime edges. */
  ghost predicate Needed(w: World, target: string, deps: seq<Dep>, k: Key)
    requires w.toolchain.Some?
  {
    Reachable(RunGraph(w), Seeds(w, target, deps), k)
  }

  // ----------------------------------------------------------------------- the worklist

  ghost predicate DistinctMembers(ms: seq<Member>) {
    forall i, j :: 0 <= i < j < |ms| ==> ms[i].At() != ms[j].At()
  }

  /** `seen` is what the list holds, once each, and a member is direct when it was declared. */
  ghost predicate Listing(out: seq<Member>, seen: set<Key>, direct: set<Key>) {
    && DistinctMembers(out)
    && (forall m :: m in out ==> m.At() in seen && (m.direct <==> m.At() in direct))
    && (forall k :: k in seen ==> exists m :: m in out && m.At() == k)
  }

  lemma ListMore(out: seq<Member>, seen: set<Key>, direct: set<Key>, m: Member)
    requires Listing(out, seen, direct) && m.At() !in seen && (m.direct <==> m.At() in direct)
    ensures Listing(out + [m], seen + {m.At()}, direct)
  {
    var more := out + [m];
    assert forall i :: 0 <= i < |out| ==> out[i] in out && out[i].At() in seen;
    forall k | k in seen + {m.At()} ensures exists n :: n in more && n.At() == k {
      if k in seen {
        var n :| n in out && n.At() == k;
        assert n in more;
      } else {
        assert m in more;
      }
    }
  }

  method SeedDirect(w: World, target: string, deps: seq<Dep>) returns (out: seq<Member>, seen: set<Key>, queue: seq<Key>)
    requires w.toolchain.Some?
    ensures seen == DirectKeys(w, target, deps) && Listing(out, seen, seen)
    ensures forall k :: k in queue <==> k in seen
  {
    out, seen, queue := [], {}, [];
    var all := Declared(w, target, deps);
    ghost var direct := DirectKeys(w, target, deps);
    for i := 0 to |all|
      invariant seen == set d <- all[..i] :: SeedKey(w, target, d)
      invariant seen <= direct && Listing(out, seen, direct)
      invariant forall k :: k in queue <==> k in seen
    {
      var d := all[i];
      var k := SeedKey(w, target, d);
      assert all[..i + 1] == all[..i] + [d] && d in all;
      if k !in seen {
        var m := Member(d.name, true, k.target);
        ListMore(out, seen, direct, m);
        out, seen, queue := out + [m], seen + {k}, queue + [k];
      }
    }
    assert all[..|all|] == all;
  }

  method SeedTools(w: World, target: string, deps: seq<Dep>, before: seq<Member>, had: set<Key>, queued: seq<Key>)
    returns (out: seq<Member>, seen: set<Key>, queue: seq<Key>)
    requires w.toolchain.Some? && had == DirectKeys(w, target, deps) && Listing(before, had, had)
    requires forall k :: k in queued <==> k in had
    ensures seen == Seeds(w, target, deps) && Listing(out, seen, had)
    ensures forall k :: k in queue <==> k in seen
  {
    out, seen, queue := before, had, queued;
    if target == w.host {
      return;
    }
    for i := 0 to |deps|
      invariant seen == had + set d <- deps[..i] | WantsTools(w, target, d) :: Key(w.host, d.name)
      invariant Listing(out, seen, had)
      invariant forall k :: k in queue <==> k in seen
    {
      var d := deps[i];
      assert deps[..i + 1] == deps[..i] + [d];
      if d.host {
        continue;
      }
      var at := Key(w.host, d.name);
      if at in seen || !Tools(w, w.host, d.name) || Tools(w, target, d.name) {
        continue;
      }
      var m := Member(d.name, false, w.host);
      ListMore(out, seen, had, m);
      out, seen, queue := out + [m], seen + {at}, queue + [at];
    }
    assert deps[..|deps|] == deps;
  }

  /** One package's runtime dependencies join the list and the queue. */
  method Follow(w: World, ghost seeds: set<Key>, ghost direct: set<Key>, k: Key,
                before: seq<Member>, had: set<Key>, queued: seq<Key>)
    returns (out: seq<Member>, seen: set<Key>, queue: seq<Key>)
    requires k in w.db && k in had && direct <= had && Listing(before, had, direct) && Known(RunGraph(w), seeds, had)
    ensures had <= seen && Listing(out, seen, direct) && Known(RunGraph(w), seeds, seen)
    ensures forall q :: q in queue <==> q in queued || (q in seen && q !in had)
    ensures Followed(RunGraph(w), seen, k)
    ensures |queue| - |queued| == |seen| - |had|
  {
    out, seen, queue := before, had, queued;
    var ds := w.db[k].depends;
    for i := 0 to |ds|
      invariant had <= seen && Listing(out, seen, direct) && Known(RunGraph(w), seeds, seen)
      invariant forall q :: q in queue <==> q in queued || (q in seen && q !in had)
      invariant forall l :: 0 <= l < i && !ds[l].make ==> Key(k.target, ds[l].name) in seen
      invariant |queue| - |queued| == |seen| - |had|
    {
      var d := ds[i];
      var at := Key(k.target, d.name);
      if d.make || at in seen {
        continue;
      }
      assert d in ds && at in Runs(k.target, ds);
      KnownMore(RunGraph(w), seeds, seen, k, at);
      var m := Member(d.name, false, k.target);
      ListMore(out, seen, direct, m);
      out, seen, queue := out + [m], seen + {at}, queue + [at];
    }
  }

  /** The package last queued, followed. */
  method FollowNext(w: World, ghost seeds: set<Key>, ghost direct: set<Key>, before: seq<Member>, had: set<Key>, queued: seq<Key>)
    returns (out: seq<Member>, seen: set<Key>, queue: seq<Key>)
    requires queued != [] && queued[|queued| - 1] in w.db && direct <= had
    requires Listing(before, had, direct) && Known(RunGraph(w), seeds, had) && Following(RunGraph(w), had, queued)
    ensures had <= seen && Listing(out, seen, direct) && Known(RunGraph(w), seeds, seen) && Following(RunGraph(w), seen, queue)
    ensures |had| <= |seen| <= |Universe(RunGraph(w), seeds)| && (|had| == |seen| ==> |queue| < |queued|)
  {
    var k := queued[|queued| - 1];
    var rest := queued[..|queued| - 1];
    assert queued == rest + [k] && k in queued;
    out, seen, queue := Follow(w, seeds, direct, k, before, had, rest);
    StillFollowing(RunGraph(w), had, rest, k, seen, queue);
    Sizes(had, seen, Universe(RunGraph(w), seeds));
  }

  ghost predicate IsClosure(w: World, target: string, deps: seq<Dep>, ms: seq<Member>)
    requires w.toolchain.Some?
  {
    && DistinctMembers(ms)
    && (forall m :: m in ms ==> Needed(w, target, deps, m.At()))
    && (forall k :: Needed(w, target, deps, k) ==> exists m :: m in ms && m.At() == k)
    && (forall m :: m in ms ==> (m.direct <==> m.At() in DirectKeys(w, target, deps)))
  }

  // -------------------------------------------------------------------- in plain terms

  predicate HasPrograms(w: World, t: string, name: string) {
    Key(t, name) in w.db
    && exists e <- w.db[Key(t, name)].manifest :: "usr/bin/" <= e.path && !(|e.path| >= 7 && e.path[|e.path| - 7..] == "-config")
  }

  /** A package of the toolchain file, the libc of the target, or a dependency of the recipe. */
  ghost predicate Asked(w: World, target: string, deps: seq<Dep>, k: Key)
    requires w.toolchain.Some?
  {
    || (k.target == w.host && k.name in w.toolchain.value)
    || (if |target| >= 3 && target[|target| - 3..] == "gnu" then
          k in {Key(target, "glibc"), Key(target, "gcc-runtime"), Key(w.host, "gcc-stage1")}
        else k == Key(target, "musl"))
    || (exists d :: d in deps && k.name == d.name && k.target == if d.host then w.host else target)
  }

  /** One of these, or the host's build of a dependency whose programs the target's lacks. */
  ghost predicate Seeded(w: World, target: string, deps: seq<Dep>, k: Key)
    requires w.toolchain.Some?
  {
    || Asked(w, target, deps, k)
    || (target != w.host && k.target == w.host
        && exists d :: d in deps && !d.host && k.name == d.name && HasPrograms(w, w.host, d.name) && !HasPrograms(w, target, d.name))
  }

  /** With every package its runtime dependencies, for its own target. */
  ghost predicate HoldsRuntime(w: World, s: set<Key>) {
    forall k, d :: k in s && k in w.db && d in w.db[k].depends && !d.make ==> Key(k.target, d.name) in s
  }

  ghost predicate Complete(w: World, target: string, deps: seq<Dep>, s: set<Key>)
    requires w.toolchain.Some?
  {
    (forall k :: Seeded(w, target, deps, k) ==> k in s) && HoldsRuntime(w, s)
  }

  /** Some package of the set runs on it. */
  ghost predicate RunOnBy(w: World, s: set<Key>, k: Key) {
    exists a, d :: a in s && a in w.db && d in w.db[a].depends && !d.make && k == Key(a.target, d.name)
  }

  /** Complete, in every complete set, and nothing in it without a reason. */
  ghost predicate LeastComplete(w: World, target: string, deps: seq<Dep>, s: set<Key>)
    requires w.toolchain.Some?
  {
    && Complete(w, target, deps, s)
    && (forall o :: Complete(w, target, deps, o) ==> s <= o)
    && (forall k :: k in s ==> Seeded(w, target, deps, k) || RunOnBy(w, s, k))
  }

  function Ats(ms: seq<Member>): set<Key> {
    set m <- ms :: m.At()
  }

  lemma SuffixIs(s: string, n: nat, suffix: string)
    requires |suffix| == n
    ensures EndsWith(s, suffix) <==> |s| >= n && s[|s| - n..] == suffix
  {
  }

  lemma ProgramsAre(w: World, t: string, name: string)
    ensures Tools(w, t, name) <==> HasPrograms(w, t, name)
  {
    forall p: string ensures StartsWith(p, "usr/bin/") && !IsConfig(p) <==> "usr/bin/" <= p && !(|p| >= 7 && p[|p| - 7..] == "-config") {
      SuffixIs(p, 7, "-config");
    }
  }

  lemma ImplicitAre(w: World, target: string, k: Key)
    ensures (exists d :: d in Implicit(target) && k == SeedKey(w, target, d)) <==>
      if |target| >= 3 && target[|target| - 3..] == "gnu" then
        k in {Key(target, "glibc"), Key(target, "gcc-runtime"), Key(w.host, "gcc-stage1")}
      else k == Key(target, "musl")
  {
    SuffixIs(target, 3, "gnu");
    var ds := Implicit(target);
    if EndsWith(target, "gnu") {
      assert |ds| == 3 && ds[0] == Dep("glibc", false, false, None) && ds[1] == Dep("gcc-runtime", false, false, None)
        && ds[2] == Dep("gcc-stage1", true, true, None);
      assert ds[0] in ds && ds[1] in ds && ds[2] in ds;
    } else {
      assert |ds| == 1 && ds[0] == Dep("musl", false, false, None);
      assert ds[0] in ds;
    }
  }

  lemma ToolchainAre(w: World, target: string, k: Key)
    requires w.toolchain.Some?
    ensures (exists d :: d in ToolchainDeps(w.toolchain.value) && k == SeedKey(w, target, d))
      <==> k.target == w.host && k.name in w.toolchain.value
  {
    var names := w.toolchain.value;
    var ds := ToolchainDeps(names);
    if k.target == w.host && k.name in names {
      var i :| 0 <= i < |names| && names[i] == k.name;
      assert ds[i] == Dep(k.name, true, true, None) && ds[i] in ds;
    }
  }

  /** What is declared is what is asked for. */
  lemma DirectAre(w: World, target: string, deps: seq<Dep>, k: Key)
    requires w.toolchain.Some?
    ensures k in DirectKeys(w, target, deps) <==> Asked(w, target, deps, k)
  {
    ToolchainAre(w, target, k);
    ImplicitAre(w, target, k);
    var a, b := ToolchainDeps(w.toolchain.value), Implicit(target);
    assert forall d :: d in Declared(w, target, deps) <==> d in a || d in b || d in deps;
  }

  lemma SeedsAre(w: World, target: string, deps: seq<Dep>, k: Key)
    requires w.toolchain.Some?
    ensures k in Seeds(w, target, deps) <==> Seeded(w, target, deps, k)
  {
    DirectAre(w, target, deps, k);
    forall d | d in deps ensures WantsTools(w, target, d) <==>
      target != w.host && !d.host && HasPrograms(w, w.host, d.name) && !HasPrograms(w, target, d.name)
    {
      ProgramsAre(w, w.host, d.name);
      ProgramsAre(w, target, d.name);
    }
  }

  lemma RunsAre(w: World, s: set<Key>)
    ensures HoldsRuntime(w, s) <==> ClosedUnder(RunGraph(w), s)
  {
    forall a, d | a in w.db && d in w.db[a].depends && !d.make ensures Edge(RunGraph(w), a, Key(a.target, d.name)) {
    }
  }

  /** A complete set holds all that is needed. */
  lemma CompleteHolds(w: World, target: string, deps: seq<Dep>, s: set<Key>)
    requires w.toolchain.Some? && Complete(w, target, deps, s)
    ensures forall k :: Needed(w, target, deps, k) ==> k in s
  {
    forall k | k in Seeds(w, target, deps) ensures k in s {
      SeedsAre(w, target, deps, k);
    }
    RunsAre(w, s);
    ReachableLeast(RunGraph(w), Seeds(w, target, deps), s);
  }

  lemma ReasonFor(w: World, target: string, deps: seq<Dep>, s: set<Key>, k: Key)
    requires w.toolchain.Some? && Needed(w, target, deps, k) && forall n :: Needed(w, target, deps, n) ==> n in s
    ensures Seeded(w, target, deps, k) || RunOnBy(w, s, k)
  {
    SeedsAre(w, target, deps, k);
    var g, seeds := RunGraph(w), Seeds(w, target, deps);
    var n: nat :| Within(g, seeds, k, n);
    if k !in seeds {
      var a :| Within(g, seeds, a, n - 1) && Edge(g, a, k);
      assert Needed(w, target, deps, a);
    }
  }

  /** What is needed is the least complete set. */
  lemma NeededLeast(w: World, target: string, deps: seq<Dep>, s: set<Key>)
    requires w.toolchain.Some? && forall k :: Needed(w, target, deps, k) <==> k in s
    ensures LeastComplete(w, target, deps, s)
  {
    forall k | Seeded(w, target, deps, k) ensures k in s {
      SeedsAre(w, target, deps, k);
      SeedReachable(RunGraph(w), Seeds(w, target, deps), k);
      assert Needed(w, target, deps, k);
    }
    forall a, b | a in s && Edge(RunGraph(w), a, b) ensures b in s {
      assert Needed(w, target, deps, a);
      EdgeReachable(RunGraph(w), Seeds(w, target, deps), a, b);
      assert Needed(w, target, deps, b);
    }
    RunsAre(w, s);
    forall o | Complete(w, target, deps, o) ensures s <= o {
      CompleteHolds(w, target, deps, o);
    }
    forall k | k in s ensures Seeded(w, target, deps, k) || RunOnBy(w, s, k) {
      ReasonFor(w, target, deps, s, k);
    }
  }

  lemma NoneComplete(w: World, target: string, deps: seq<Dep>, k: Key)
    requires w.toolchain.Some? && Needed(w, target, deps, k) && k !in w.db
    ensures !exists s :: s <= w.db.Keys && Complete(w, target, deps, s)
  {
    forall s | s <= w.db.Keys ensures !Complete(w, target, deps, s) {
      if Complete(w, target, deps, s) {
        CompleteHolds(w, target, deps, s);
      }
    }
  }

  lemma ListedLeast(w: World, target: string, deps: seq<Dep>, ms: seq<Member>, seen: set<Key>)
    requires w.toolchain.Some? && Listing(ms, seen, DirectKeys(w, target, deps)) && seen <= w.db.Keys
    requires forall k :: Needed(w, target, deps, k) <==> k in seen
    ensures LeastComplete(w, target, deps, Ats(ms)) && Ats(ms) <= w.db.Keys
    ensures forall m :: m in ms ==> (m.direct <==> Asked(w, target, deps, m.At()))
  {
    assert Ats(ms) == seen;
    NeededLeast(w, target, deps, seen);
    forall m | m in ms ensures m.direct <==> Asked(w, target, deps, m.At()) {
      DirectAre(w, target, deps, m.At());
    }
  }

  /** Exactly what is needed, once each; an error is some needed package that has no record,
      or a toolchain file that cannot be read. */
  method Closure(w: World, target: string, deps: seq<Dep>) returns (r: Option<seq<Member>>)
    ensures r.Some? <==> w.toolchain.Some? && forall k :: Needed(w, target, deps, k) ==> k in w.db
    ensures r.Some? ==> IsClosure(w, target, deps, r.value)
    ensures r.Some? <==> w.toolchain.Some? && exists s :: s <= w.db.Keys && Complete(w, target, deps, s)
    ensures r.Some? ==> LeastComplete(w, target, deps, Ats(r.value))
    ensures r.Some? ==> forall m :: m in r.value ==> (m.direct <==> Asked(w, target, deps, m.At()))
  {
    if w.toolchain.None? {
      return None;
    }
    ghost var seeds, direct := Seeds(w, target, deps), DirectKeys(w, target, deps);
    var out, seen, queue := SeedDirect(w, target, deps);
    out, seen, queue := SeedTools(w, target, deps, out, seen, queue);
    KnownSeeds(RunGraph(w), seeds);
    while queue != []
      invariant seeds <= seen && Listing(out, seen, direct) && Known(RunGraph(w), seeds, seen)
      invariant Following(RunGraph(w), seen, queue)
      decreases |Universe(RunGraph(w), seeds)| - |seen|, |queue|
    {
      if queue[|queue| - 1] !in w.db {
        assert queue[|queue| - 1] in queue;
        NoneComplete(w, target, deps, queue[|queue| - 1]);
        return None;
      }
      out, seen, queue := FollowNext(w, seeds, direct, out, seen, queue);
    }
    AllFollowed(RunGraph(w), seeds, seen);
    ListedLeast(w, target, deps, out, seen);
    return Some(out);
  }

  /** A build sees two targets, its own and the host's. */
  lemma TwoTargets(w: World, target: string, deps: seq<Dep>, k: Key)
    requires w.toolchain.Some? && Needed(w, target, deps, k)
    ensures k.target == target || k.target == w.host
  {
    var g, seeds := RunGraph(w), Seeds(w, target, deps);
    var good := set s | s in Universe(g, seeds) && (s.target == target || s.target == w.host);
    forall a, b | a in g && a in good && b in g[a] ensures b in good {
      assert b in Universe(g, seeds);
    }
    ReachableAll(g, seeds, good);
  }
}
