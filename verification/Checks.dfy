/** What a batch is refused for and what a removal comes to, said of the packages, their entries
    and their dependencies: `conflicts`, `deps` and `remove` in install.rs. */
module Checks {
  import opened Paths
  import opened Disk
  import opened Records
  import opened Extraction
  import opened Lifecycle
  import opened Ownership
  import Dependencies

  // ---------------------------------------------------------------------- shipped paths

  /** A package that is not being replaced holds the path as something other than a directory. */
  ghost predicate Held(st: State, jobs: seq<Job>, p: Path) {
    exists k, e :: (
      && k in st.installed && (forall j :: j in jobs ==> j.key != k)
      && e in st.installed[k].manifest && e.path == p && !e.kind.Dir?)
  }

  /** Two members of the batch, none of them a directory, go to one place. */
  ghost predicate Collide(jobs: seq<Job>, i: nat, a: nat, l: nat, b: nat) {
    && LeafAt(jobs, i, a) && LeafAt(jobs, l, b) && (i != l || a != b)
    && jobs[i].members[a].path == jobs[l].members[b].path
  }

  predicate LeafAt(jobs: seq<Job>, i: nat, a: nat) {
    i < |jobs| && a < |jobs[i].members| && !jobs[i].members[a].what.Dir?
  }

  /** A dependency that is not for the build only, on a package that is neither installed for the
      target nor, for whatever target, in the batch. */
  ghost predicate Lacks(st: State, jobs: seq<Job>, j: Job, d: Dep) {
    && j in jobs && d in j.depends && !d.make
    && Key(j.key.target, d.name) !in st.installed && forall o :: o in jobs ==> o.key.name != d.name
  }

  /** A member of a list of members, by its place. */
  predicate LeafIn(ms: seq<Member>, a: nat) {
    a < |ms| && !ms[a].what.Dir?
  }

  ghost predicate Apart(ms: seq<Member>) {
    forall a: nat, b: nat :: a < b && LeafIn(ms, a) && LeafIn(ms, b) ==> ms[a].path != ms[b].path
  }

  /** The first of a list of members meets a later one. */
  ghost predicate Meets(ms: seq<Member>) {
    LeafIn(ms, 0) && exists b: nat :: 0 < b && LeafIn(ms, b) && ms[b].path == ms[0].path
  }

  lemma ApartOn(ms: seq<Member>, rest: seq<Member>)
    requires ms != [] && rest == ms[1..]
    ensures Apart(ms) <==> Apart(rest) && !Meets(ms)
  {
    assert forall a: nat :: LeafIn(rest, a) ==> LeafIn(ms, a + 1) && ms[a + 1] == rest[a];
    if Apart(rest) && !Meets(ms) {
      forall a: nat, b: nat | a < b && LeafIn(ms, a) && LeafIn(ms, b) ensures ms[a].path != ms[b].path {
        if a > 0 {
          assert LeafIn(rest, a - 1) && LeafIn(rest, b - 1);
        }
      }
    }
  }

  lemma {:induction false} LeavesApart(ms: seq<Member>)
    ensures Dependencies.Distinct(LeafPaths(ms)) <==> Apart(ms)
  {
    if ms != [] {
      var m, rest := ms[0], ms[1..];
      LeavesApart(rest);
      LeafPathsMember(rest, m.path);
      ApartOn(ms, rest);
      FirstApart(ms, rest);
      if !m.what.Dir? {
        DistinctOn(m.path, LeafPaths(rest), LeafPaths(ms));
      } else {
        assert LeafPaths(ms) == LeafPaths(rest);
      }
    }
  }

  lemma DistinctOn(p: Path, ps: seq<Path>, all: seq<Path>)
    requires all == [p] + ps
    ensures Dependencies.Distinct(all) <==> p !in ps && Dependencies.Distinct(ps)
  {
    assert forall i :: 0 <= i < |ps| ==> ps[i] == all[i + 1];
    if Dependencies.Distinct(all) {
      forall i | 0 <= i < |ps| ensures ps[i] != p {
        assert all[0] != all[i + 1];
      }
    }
    if p !in ps && Dependencies.Distinct(ps) {
      forall i, k | 0 <= i < k < |all| ensures all[i] != all[k] {
        assert all[k] == ps[k - 1] && ps[k - 1] in ps;
        assert i > 0 ==> all[i] == ps[i - 1];
      }
    }
  }

  lemma FirstApart(ms: seq<Member>, rest: seq<Member>)
    requires ms != [] && rest == ms[1..]
    ensures (exists m :: m in rest && !m.what.Dir? && m.path == ms[0].path) <==> exists b: nat :: 0 < b && LeafIn(ms, b) && ms[b].path == ms[0].path
  {
    if m :| m in rest && !m.what.Dir? && m.path == ms[0].path {
      var b :| 0 <= b < |rest| && rest[b] == m;
      assert LeafIn(ms, b + 1);
    }
    if b: nat :| 0 < b && LeafIn(ms, b) && ms[b].path == ms[0].path {
      assert ms[b] == rest[b - 1] && ms[b] in rest;
    }
  }

  // ------------------------------------------------------------------------- the batch

  ghost predicate Colliding(jobs: seq<Job>) {
    exists i: nat, a: nat, l: nat, b: nat :: Collide(jobs, i, a, l, b)
  }

  /** One package's members meet another's. */
  ghost predicate Across(j: Job, jobs: seq<Job>) {
    exists o, p :: o in jobs && p in LeafPaths(j.members) && p in LeafPaths(o.members)
  }

  lemma {:induction false} AllLeaves(jobs: seq<Job>, p: Path)
    ensures p in AllLeafPaths(jobs) <==> exists j :: j in jobs && p in LeafPaths(j.members)
  {
    if jobs != [] {
      AllLeaves(jobs[1..], p);
      assert forall j :: j in jobs <==> j == jobs[0] || j in jobs[1..];
    }
  }

  lemma DistinctJoined(a: seq<Path>, b: seq<Path>)
    ensures Dependencies.Distinct(a + b) <==> Dependencies.Distinct(a) && Dependencies.Distinct(b) && forall p :: p in a ==> p !in b
  {
    var s := a + b;
    if Dependencies.Distinct(s) {
      assert forall i :: 0 <= i < |a| ==> s[i] == a[i];
      assert forall i :: 0 <= i < |b| ==> s[|a| + i] == b[i];
      forall p | p in a ensures p !in b {
        var i :| 0 <= i < |a| && a[i] == p;
        assert forall k :: 0 <= k < |b| ==> a[i] != b[k];
      }
    }
    if Dependencies.Distinct(a) && Dependencies.Distinct(b) && forall p :: p in a ==> p !in b {
      forall i, k | 0 <= i < k < |s| ensures s[i] != s[k] {
        if i < |a| <= k {
          assert a[i] in a && b[k - |a|] in b;
        }
      }
    }
  }

  /** Nothing in the first package meets itself or a later one. */
  lemma CollidingOn(jobs: seq<Job>, rest: seq<Job>)
    requires jobs != [] && rest == jobs[1..]
    ensures Colliding(jobs) <==> Colliding(rest) || !Apart(jobs[0].members) || Across(jobs[0], rest)
  {
    if i: nat, a: nat, l: nat, b: nat :| Collide(jobs, i, a, l, b) {
      CollideFirst(jobs, rest, i, a, l, b);
    }
    if i: nat, a: nat, l: nat, b: nat :| Collide(rest, i, a, l, b) {
      assert Collide(jobs, i + 1, a, l + 1, b);
    }
    var ms := jobs[0].members;
    if a: nat, b: nat :| a < b && LeafIn(ms, a) && LeafIn(ms, b) && ms[a].path == ms[b].path {
      assert Collide(jobs, 0, a, 0, b);
    }
    if Across(jobs[0], rest) {
      var o, p :| o in rest && p in LeafPaths(ms) && p in LeafPaths(o.members);
      var l :| 0 <= l < |rest| && rest[l] == o;
      var a := LeafPlace(ms, p);
      var b := LeafPlace(o.members, p);
      assert Collide(jobs, 0, a, l + 1, b);
    }
  }

  lemma LeafPlace(ms: seq<Member>, p: Path) returns (a: nat)
    requires p in LeafPaths(ms)
    ensures LeafIn(ms, a) && ms[a].path == p
  {
    LeafPathsMember(ms, p);
    var m :| m in ms && !m.what.Dir? && m.path == p;
    a :| 0 <= a < |ms| && ms[a] == m;
  }

  lemma LeafThere(ms: seq<Member>, a: nat)
    requires LeafIn(ms, a)
    ensures ms[a].path in LeafPaths(ms)
  {
    LeafPathsMember(ms, ms[a].path);
    assert ms[a] in ms;
  }

  lemma CollideFirst(jobs: seq<Job>, rest: seq<Job>, i: nat, a: nat, l: nat, b: nat)
    requires jobs != [] && rest == jobs[1..] && Collide(jobs, i, a, l, b)
    ensures Colliding(rest) || !Apart(jobs[0].members) || Across(jobs[0], rest)
  {
    LeafThere(jobs[i].members, a);
    LeafThere(jobs[l].members, b);
    if i > 0 && l > 0 {
      assert rest[i - 1] == jobs[i] && rest[l - 1] == jobs[l];
      assert Collide(rest, i - 1, a, l - 1, b);
    } else if i == l {
      assert LeafIn(jobs[0].members, a) && LeafIn(jobs[0].members, b);
    } else {
      var o := if i == 0 then jobs[l] else jobs[i];
      assert o in rest;
    }
  }

  /** The paths a batch ships are all different exactly when no two of its members collide. */
  lemma {:induction false} AllApart(jobs: seq<Job>)
    ensures Dependencies.Distinct(AllLeafPaths(jobs)) <==> !Colliding(jobs)
  {
    if jobs != [] {
      var rest, ps := jobs[1..], LeafPaths(jobs[0].members);
      AllApart(rest);
      LeavesApart(jobs[0].members);
      DistinctJoined(ps, AllLeafPaths(rest));
      CollidingOn(jobs, rest);
      forall p ensures p in AllLeafPaths(rest) <==> exists j :: j in rest && p in LeafPaths(j.members) {
        AllLeaves(rest, p);
      }
    }
  }

  /** A batch is accepted exactly when no package that stays holds a path one of its members other
      than a directory goes to, no two such members go to one place, and nothing it needs to run
      is lacking. */
  lemma AcceptsMeans(st: State, jobs: seq<Job>)
    ensures Accepts(st, jobs) <==>
      && (forall j, m :: j in jobs && m in j.members && !m.what.Dir? ==> !Held(st, jobs, m.path))
      && !Colliding(jobs)
      && forall j, d :: !Lacks(st, jobs, j, d)
  {
    AllApart(jobs);
    UnownedMeans(st, jobs);
    MetMeans(st, jobs);
  }

  ghost predicate Unowned(st: State, jobs: seq<Job>) {
    forall i :: 0 <= i < |AllLeafPaths(jobs)| ==> !Owned(st, JobKeys(jobs), AllLeafPaths(jobs)[i])
  }

  lemma OwnedMeans(st: State, jobs: seq<Job>, p: Path)
    ensures Owned(st, JobKeys(jobs), p) <==> Held(st, jobs, p)
  {
    assert forall k: Key :: k !in JobKeys(jobs) <==> forall j :: j in jobs ==> j.key != k;
  }

  lemma UnownedMeans(st: State, jobs: seq<Job>)
    ensures Unowned(st, jobs) <==> forall j, m :: j in jobs && m in j.members && !m.what.Dir? ==> !Held(st, jobs, m.path)
  {
    forall p: Path ensures Owned(st, JobKeys(jobs), p) <==> Held(st, jobs, p) {
      OwnedMeans(st, jobs, p);
    }
    forall p ensures p in AllLeafPaths(jobs) <==> exists j: Job :: j in jobs && ShipsIt(j, p) {
      AllLeaves(jobs, p);
      forall j: Job ensures p in LeafPaths(j.members) <==> ShipsIt(j, p) {
        LeafPathsMember(j.members, p);
      }
    }
    if Unowned(st, jobs) {
      forall j, m | j in jobs && m in j.members && !m.what.Dir? ensures !Held(st, jobs, m.path) {
        assert ShipsIt(j, m.path) && m.path in AllLeafPaths(jobs);
      }
    }
    if !Unowned(st, jobs) {
      var i :| 0 <= i < |AllLeafPaths(jobs)| && Owned(st, JobKeys(jobs), AllLeafPaths(jobs)[i]);
      assert AllLeafPaths(jobs)[i] in AllLeafPaths(jobs);
    }
  }

  ghost predicate ShipsIt(j: Job, p: Path) {
    exists m :: m in j.members && !m.what.Dir? && m.path == p
  }

  lemma MetMeans(st: State, jobs: seq<Job>)
    ensures (forall j, d :: j in jobs && d in j.depends ==> !Unmet(st, jobs, j, d)) <==> forall j, d :: !Lacks(st, jobs, j, d)
  {
    forall j: Job, d: Dep ensures Lacks(st, jobs, j, d) <==> j in jobs && d in j.depends && Unmet(st, jobs, j, d) {
    }
  }

  // ---------------------------------------------------------------------------- removal

  /** Something of the target that is not named still needs, to run, something that is. */
  ghost predicate Missed(st: State, target: string, names: seq<string>) {
    exists k, d :: (
      && k in st.installed && k.target == target && k.name !in names
      && d in st.installed[k].depends && !d.make && d.name in names)
  }

  ghost predicate NoneTwice(names: seq<string>) {
    forall i, k :: 0 <= i < k < |names| ==> names[i] != names[k]
  }

  /** The names up to the first one given before. */
  ghost predicate UpToRepeat(names: seq<string>, n: nat) {
    n <= |names| && NoneTwice(names[..n]) && (n < |names| ==> names[n] in names[..n])
  }

  ghost predicate NotYet(names: seq<string>, had: set<string>) {
    NoneTwice(names) && forall n :: n in names ==> n !in had
  }

  lemma {:induction false} OnceMeans(names: seq<string>, had: set<string>) returns (n: nat)
    ensures n <= |names| && Dependencies.Once(names, had) == names[..n]
    ensures NotYet(names[..n], had) && (n < |names| ==> names[n] in had || names[n] in names[..n])
    decreases |names|
  {
    n := 0;
    if names != [] && names[0] !in had {
      var rest := names[1..];
      var m := OnceMeans(rest, had + {names[0]});
      n := m + 1;
      assert names[..n] == [names[0]] + rest[..m];
      assert forall k :: 0 < k < n ==> names[..n][k] == rest[..m][k - 1] && rest[..m][k - 1] in rest[..m];
    }
  }

  ghost predicate Left(st: State, r: State, k: Key) {
    (k in r.provided <==> k in st.provided) && (k in st.provided ==> r.provided[k] == st.provided[k])
  }

  lemma {:induction false} OthersLeft(st: State, target: string, names: seq<string>, recs: map<string, Installed>, k: Key)
    requires (forall n <- names :: n in recs) && (k.target != target || k.name !in names)
    ensures Left(st, RemoveAll(st, target, names, recs).st, k)
    decreases |names|
  {
    if names != [] {
      var l := Key(target, names[0]);
      if l in st.installed {
        var rec := recs[names[0]];
        var after := Forget(st.(disk := Unlink(Swept(st.disk, NOTHING), rec.manifest, Sums(rec.manifest)).disk), l);
        OthersLeft(after, target, names[1..], recs, k);
      }
    }
  }

  lemma {:induction false} RemoveEnds(st: State, target: string, names: seq<string>, recs: map<string, Installed>, had: set<string>)
    requires forall n <- names :: n in recs && (Key(target, n) in st.installed <==> n !in had)
    ensures RemoveAll(st, target, names, recs).outcome == if Dependencies.Once(names, had) == names then Gone else HalfGone
    decreases |names|
  {
    if names != [] && names[0] !in had {
      var k, rest := Key(target, names[0]), names[1..];
      var rec := recs[names[0]];
      var after := Forget(st.(disk := Unlink(Swept(st.disk, NOTHING), rec.manifest, Sums(rec.manifest)).disk), k);
      RemoveEnds(after, target, rest, recs, had + {names[0]});
      var once := Dependencies.Once(rest, had + {names[0]});
      assert names == [names[0]] + rest;
      assert ([names[0]] + once)[1..] == once;
    }
  }

  /** A removal that goes through. */
  ghost predicate Taken(st: State, r: Removal, target: string, names: seq<string>, n: nat)
    requires n <= |names|
  {
    && r.outcome == (if NoneTwice(names) then Gone else HalfGone)
    && r.st.installed == (map k | k in st.installed && !(k.target == target && k.name in names[..n]) :: st.installed[k])
    && forall k: Key :: k.target != target || k.name !in names ==> Left(st, r.st, k)
  }

  lemma TakenMeans(st: State, target: string, names: seq<string>, recs: map<string, Installed>, n: nat)
    requires forall m :: m in names ==> m in recs && Key(target, m) in st.installed
    requires UpToRepeat(names, n) && Dependencies.Once(names, {}) == names[..n]
    ensures Taken(st, RemoveAll(st, target, names, recs), target, names, n)
  {
    Dependencies.RemoveAllOnce(st, target, names, recs, {});
    RemoveEnds(st, target, names, recs, {});
    forall k: Key | k.target != target || k.name !in names ensures Left(st, RemoveAll(st, target, names, recs).st, k) {
      OthersLeft(st, target, names, recs, k);
    }
    assert names[..n] == names <==> NoneTwice(names);
  }

  /** How a removal ends, and whose records it takes: those of the names up to the first one given
      twice, where it stops. */
  lemma RemoveMeans(st: State, target: string, names: seq<string>, force: bool) returns (n: nat)
    ensures UpToRepeat(names, n)
    ensures var r := Remove(st, target, names, force);
      if exists o :: o in names && Key(target, o) !in st.installed then r.outcome == NotInstalled && r.st == st
      else if !force && Missed(st, target, names) then r.outcome == StillNeeded && r.st == st
      else Taken(st, r, target, names, n)
  {
    n := OnceMeans(names, {});
    assert Needed(st, target, names) <==> Missed(st, target, names);
    if (forall o :: o in names ==> Key(target, o) in st.installed) && (force || !Needed(st, target, names)) {
      TakenMeans(st, target, names, RecordsOf(st, target, names), n);
    }
  }
}
