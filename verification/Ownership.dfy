/** Who owns what, over every run of installs and removals. */
module Ownership {
  import opened Paths
  import opened Disk
  import opened Records
  import opened Extraction
  import opened Lifecycle

  /** No non-directory path is in two records, over all targets. */
  ghost predicate Exclusive(st: State) {
    forall k, l, p :: k in st.installed && l in st.installed && k != l && Claims(st.installed[k], p)
      ==> !Claims(st.installed[l], p)
  }

  /** A package provides only files its own record names. */
  ghost predicate OwnLibraries(st: State) {
    forall k :: k in st.provided ==>
      && k in st.installed
      && forall l :: l in st.provided[k] ==> Names(st.installed[k].manifest, l.path)
  }

  // ------------------------------------------------------------------------ extraction

  lemma {:induction false} LeafPathsMember(ms: seq<Member>, p: Path)
    ensures p in LeafPaths(ms) <==> exists m :: m in ms && !m.what.Dir? && m.path == p
  {
    if ms != [] {
      LeafPathsMember(ms[1..], p);
    }
  }

  ghost predicate ManifestClaims(manifest: seq<FileEntry>, p: Path) {
    exists e :: e in manifest && e.path == p && !e.kind.Dir?
  }

  /** A manifest claims the leaf members of its archive and nothing else. */
  lemma {:induction false} ExtractClaims(d: Disk, ms: seq<Member>, skip: set<Path>, keep: set<Path>, p: Path)
    requires Extract(d, ms, skip, keep).Some?
    ensures ManifestClaims(Extract(d, ms, skip, keep).value.manifest, p) <==> p in LeafPaths(ms)
    decreases |ms|
  {
    if ms != [] {
      var e := Run(d, Steps(d, ms[0], skip)).value;
      ExtractClaims(e, ms[1..], skip, keep, p);
      var rest := Extract(e, ms[1..], skip, keep).value.manifest;
      var dirs := DirEntries(Missing(d, Parent(ms[0].path)));
      var all := dirs + [Recorded(ms[0], keep)] + rest;
      assert Extract(d, ms, skip, keep).value.manifest == all;
      assert forall x :: x in dirs ==> x.kind.Dir?;
      assert forall x :: x in all <==> x in dirs || x == Recorded(ms[0], keep) || x in rest;
      assert all[|dirs|] == Recorded(ms[0], keep);
      assert ManifestClaims(rest, p) ==> ManifestClaims(all, p);
    }
  }

  lemma {:induction false} ScanNames(env: Env, d: Disk, manifest: seq<FileEntry>)
    ensures forall l :: l in Scan(env, d, manifest) ==> Names(manifest, l.path)
  {
    if manifest != [] {
      ScanNames(env, d, manifest[1..]);
    }
  }

  /** What a job's own record claims once the batch is recorded: what a job of that key
      shipped. */
  ghost predicate Shipped(st: State, jobs: seq<Job>, k: Key) {
    k in st.installed && exists j :: j in jobs && j.key == k && forall p :: Claims(st.installed[k], p) ==> p in Taken(j)
  }

  /** A record that is what the first archive extracted to has nothing else. */
  lemma ShippedHere(env: Env, etc: set<FileEntry>, st: State, jobs: seq<Job>, r: State)
    requires jobs != [] && jobs[0].key in r.installed
    requires var x := Extract(st.disk, jobs[0].members, Skip(etc, st.disk, jobs[0].members), env.keep);
      x.Some? && r.installed[jobs[0].key].manifest == x.value.manifest
    ensures Shipped(r, jobs, jobs[0].key)
  {
    var j := jobs[0];
    var skip := Skip(etc, st.disk, j.members);
    var x := Extract(st.disk, j.members, skip, env.keep).value;
    forall p | Claims(r.installed[j.key], p) ensures p in Taken(j) {
      assert ManifestClaims(x.manifest, p);
      ExtractClaims(st.disk, j.members, skip, env.keep, p);
      LeafPathsMember(j.members, p);
    }
  }

  lemma {:induction false} ApplyJobsRecords(env: Env, etc: set<FileEntry>, st: State, jobs: seq<Job>, kept: set<Path>)
    requires ApplyJobs(env, etc, st, jobs, kept).Some? && OwnLibraries(st)
    ensures var r := ApplyJobs(env, etc, st, jobs, kept).value;
      && OwnLibraries(r.st)
      && r.st.preserved == st.preserved
      && r.st.installed.Keys == st.installed.Keys + JobKeys(jobs)
      && (forall k :: k in st.installed && k !in JobKeys(jobs) ==> r.st.installed[k] == st.installed[k])
      && (forall k :: k in JobKeys(jobs) ==> Shipped(r.st, jobs, k))
    decreases |jobs|
  {
    if jobs != [] {
      var j, rest := jobs[0], jobs[1..];
      var x := Extract(st.disk, j.members, Skip(etc, st.disk, j.members), env.keep).value;
      var next := Recording(env, st, j, x);
      ScanNames(env, x.disk, x.manifest);
      ApplyJobsRecords(env, etc, next, rest, kept + PathSet(x.manifest));
      var r := ApplyJobs(env, etc, st, jobs, kept).value;
      assert JobKeys(jobs) == {j.key} + JobKeys(rest);
      forall k | k in JobKeys(jobs) ensures Shipped(r.st, jobs, k) {
        if k in JobKeys(rest) {
          assert Shipped(r.st, rest, k);
        } else {
          ShippedHere(env, etc, st, jobs, r.st);
        }
      }
    }
  }

  lemma {:induction false} PreserveJobsRecords(st: State, jobs: seq<Job>, was: seq<Option<Installed>>, before: seq<map<Path, string>>,
                                               carried: seq<seq<Provide<Path>>>, kept: set<Path>)
    requires |jobs| == |was| == |before| == |carried|
    ensures var r := PreserveJobs(st, jobs, was, before, carried, kept).st;
      r.installed == st.installed && r.provided == st.provided && r.disk == st.disk
    decreases |jobs|
  {
    if jobs != [] {
      var m := Preserve(was[0], before[0], carried[0], kept);
      PreserveJobsRecords(PreserveOne(st, jobs[0].key, m, kept), jobs[1..], was[1..], before[1..], carried[1..], kept + PathSet(m));
    }
  }

  // -------------------------------------------------------------------- dispossession

  lemma {:induction false} WithoutEntries(manifest: seq<FileEntry>, taken: set<Path>)
    ensures forall e :: e in Without(manifest, taken) <==> e in manifest && (e.kind.Dir? || e.path !in taken)
    ensures |Without(manifest, taken)| <= |manifest|
    ensures |Without(manifest, taken)| == |manifest| ==> Without(manifest, taken) == manifest
  {
    if manifest != [] {
      WithoutEntries(manifest[1..], taken);
    }
  }

  lemma {:induction false} OwnProvidesNames(ps: seq<Provide<Path>>, own: set<Path>)
    ensures forall l :: l in OwnProvides(ps, own) ==> l in ps && l.path in own
  {
    if ps != [] {
      OwnProvidesNames(ps[1..], own);
    }
  }

  /** Every record but the job's own is left with exactly what the job did not take. */
  lemma DispossessOneRecords(st: State, j: Job)
    requires OwnLibraries(st)
    ensures var r := DispossessOne(st, j);
      && OwnLibraries(r) && r.disk == st.disk && r.preserved == st.preserved
      && r.installed.Keys == st.installed.Keys
      && forall k :: k in st.installed ==>
           r.installed[k] == if k == j.key then st.installed[k] else st.installed[k].(manifest := Without(st.installed[k].manifest, Taken(j)))
  {
    var r := DispossessOne(st, j);
    forall k | k in st.installed
      ensures r.installed[k] == if k == j.key then st.installed[k] else st.installed[k].(manifest := Without(st.installed[k].manifest, Taken(j)))
    {
      WithoutEntries(st.installed[k].manifest, Taken(j));
    }
    forall k, l | k in r.provided && l in r.provided[k]
      ensures k in r.installed && Names(r.installed[k].manifest, l.path)
    {
      if |r.installed[k].manifest| != |st.installed[k].manifest| {
        OwnProvidesNames(ProvidesOf(st, k), PathSet(r.installed[k].manifest));
      }
    }
  }

  lemma {:induction false} DispossessRecords(st: State, jobs: seq<Job>)
    requires OwnLibraries(st)
    ensures var r := Dispossess(st, jobs);
      && OwnLibraries(r) && r.disk == st.disk && r.preserved == st.preserved
      && r.installed.Keys == st.installed.Keys
      && (forall k, p :: k in r.installed && Claims(r.installed[k], p) ==>
            Claims(st.installed[k], p) && forall j :: j in jobs && j.key != k ==> p !in Taken(j))
      && (forall k, e :: k in r.installed && e in r.installed[k].manifest ==> e in st.installed[k].manifest)
    decreases |jobs|
  {
    if jobs != [] {
      var mid := DispossessOne(st, jobs[0]);
      DispossessOneRecords(st, jobs[0]);
      DispossessRecords(mid, jobs[1..]);
      forall k | k in st.installed {
        WithoutEntries(st.installed[k].manifest, Taken(jobs[0]));
      }
    }
  }

  // ------------------------------------------------------------------------------ runs

  /** Noting what stays touches neither the records nor the disk. */
  lemma HeldRecords(env: Env, st: State, jobs: seq<Job>)
    requires Batch(env, st, jobs).Some?
    ensures var (r, pass) := (Held(env, st, jobs).st, Batch(env, st, jobs).value.st);
      r.installed == pass.installed && r.provided == pass.provided && r.disk == pass.disk
  {
    var pass := Batch(env, st, jobs).value;
    PreserveJobsRecords(pass.st, jobs, WasOf(st, jobs), BeforeOf(env, st.disk, WasOf(st, jobs)), pass.carried, pass.kept);
  }

  /** The records an application leaves, whatever it does to the disk. */
  lemma ApplyRecords(env: Env, st: State, jobs: seq<Job>)
    requires Apply(env, st, jobs).Some? && OwnLibraries(st)
    ensures var (r, pass) := (Apply(env, st, jobs).value, Batch(env, st, jobs).value.st);
      && OwnLibraries(r)
      && r.installed.Keys == pass.installed.Keys == st.installed.Keys + JobKeys(jobs)
      && (forall k, p :: k in r.installed && Claims(r.installed[k], p) ==>
            Claims(pass.installed[k], p) && forall j :: j in jobs && j.key != k ==> p !in Taken(j))
      && (forall k, e :: k in r.installed && e in r.installed[k].manifest ==> e in pass.installed[k].manifest)
  {
    ApplyJobsRecords(env, EtcEntries(st), st, jobs, {});
    HeldRecords(env, st, jobs);
    DispossessRecords(Held(env, st, jobs).st, jobs);
  }

  lemma ApplyExclusive(env: Env, st: State, jobs: seq<Job>)
    requires Apply(env, st, jobs).Some? && OwnLibraries(st) && Exclusive(st)
    ensures Exclusive(Apply(env, st, jobs).value)
  {
    var r, pass := Apply(env, st, jobs).value, Batch(env, st, jobs).value.st;
    ApplyRecords(env, st, jobs);
    ApplyJobsRecords(env, EtcEntries(st), st, jobs, {});
    forall k, l, p | k in r.installed && l in r.installed && k != l && Claims(r.installed[k], p)
      ensures !Claims(r.installed[l], p)
    {
      if k in JobKeys(jobs) {
        assert Shipped(pass, jobs, k);
      } else if l in JobKeys(jobs) {
        assert Shipped(pass, jobs, l);
      }
    }
  }

  /** Under force, a path two packages of one batch both ship ends up nobody's. */
  lemma SharedPathUnowned(env: Env, st: State, jobs: seq<Job>, a: Job, b: Job, p: Path)
    requires Apply(env, st, jobs).Some? && OwnLibraries(st)
    requires a in jobs && b in jobs && a.key != b.key && p in Taken(a) && p in Taken(b)
    ensures forall k :: k in Apply(env, st, jobs).value.installed ==> !Claims(Apply(env, st, jobs).value.installed[k], p)
  {
    ApplyRecords(env, st, jobs);
  }

  lemma {:induction false} RemoveAllRecords(st: State, target: string, names: seq<string>, recs: map<string, Installed>)
    requires forall n <- names :: n in recs
    ensures var r := RemoveAll(st, target, names, recs).st;
      && r.installed.Keys <= st.installed.Keys
      && r.preserved == st.preserved
      && (forall k :: k in r.installed ==> r.installed[k] == st.installed[k])
      && (forall k :: k in r.provided ==> k in st.provided && r.provided[k] == st.provided[k])
      && (forall k :: k in st.installed && k !in r.installed ==> k !in r.provided && k.target == target && k.name in names)
      && (RemoveAll(st, target, names, recs).outcome == Gone ==> forall n :: n in names ==> Key(target, n) !in r.installed)
    decreases |names|
  {
    if names != [] {
      var k := Key(target, names[0]);
      if k in st.installed {
        var rec := recs[names[0]];
        var after := Forget(st.(disk := Unlink(Swept(st.disk, NOTHING), rec.manifest, Sums(rec.manifest)).disk), k);
        RemoveAllRecords(after, target, names[1..], recs);
      }
    }
  }

  lemma RemoveKeeps(st: State, target: string, names: seq<string>, force: bool)
    requires OwnLibraries(st) && Exclusive(st)
    ensures OwnLibraries(Remove(st, target, names, force).st) && Exclusive(Remove(st, target, names, force).st)
  {
    if forall n <- names :: Key(target, n) in st.installed {
      RemoveAllRecords(st, target, names, RecordsOf(st, target, names));
    }
  }

  datatype Command =
    | Install(env: Env, jobs: seq<Job>, force: bool)
    | Uninstall(target: string, names: seq<string>, force: bool)

  /** One command. A refused one changes nothing; `None` is a batch that failed partway. */
  ghost function Perform(st: State, c: Command): Option<State> {
    match c
    case Install(env, jobs, force) => if force || Accepts(st, jobs) then Apply(env, st, jobs) else Some(st)
    case Uninstall(target, names, force) => Some(Remove(st, target, names, force).st)
  }

  ghost function Replay(st: State, cs: seq<Command>): Option<State>
    decreases |cs|
  {
    if cs == [] then Some(st)
    else
      match Perform(st, cs[0])
      case None => None
      case Some(next) => Replay(next, cs[1..])
  }

  function Empty(disk: Disk, preserved: map<Key, map<Path, FileEntry>>): State {
    State(disk, map[], map[], preserved)
  }

  lemma {:induction false} ReplayKeeps(st: State, cs: seq<Command>)
    requires OwnLibraries(st) && Exclusive(st) && Replay(st, cs).Some?
    ensures OwnLibraries(Replay(st, cs).value) && Exclusive(Replay(st, cs).value)
    decreases |cs|
  {
    if cs != [] {
      var next := Perform(st, cs[0]).value;
      match cs[0] {
        case Install(env, jobs, force) =>
          if force || Accepts(st, jobs) {
            ApplyExclusive(env, st, jobs);
            ApplyRecords(env, st, jobs);
          }
        case Uninstall(target, names, force) =>
          RemoveKeeps(st, target, names, force);
      }
      ReplayKeeps(next, cs[1..]);
    }
  }

  /** However a database was reached, forced or not: no two records own one path, and every
      library a package provides is in its own record. */
  lemma ExclusiveAlways(disk: Disk, preserved: map<Key, map<Path, FileEntry>>, cs: seq<Command>)
    requires Replay(Empty(disk, preserved), cs).Some?
    ensures Exclusive(Replay(Empty(disk, preserved), cs).value)
    ensures OwnLibraries(Replay(Empty(disk, preserved), cs).value)
  {
    ReplayKeeps(Empty(disk, preserved), cs);
  }
}
