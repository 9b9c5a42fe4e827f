/** What the database says of every package once a batch is applied: `apply`, `scan` and
    `dispossess` in install.rs. */
module Bookkeeping {
  import opened Paths
  import opened Disk
  import opened Records
  import opened Extraction
  import opened Lifecycle
  import opened Ownership
  import Noting

  // ---------------------------------------------------------------------- dispossession

  /** Another package of the batch ships the path as something other than a directory. */
  ghost predicate TakenFrom(jobs: seq<Job>, k: Key, p: Path) {
    exists j :: j in jobs && j.key != k && ShipsLeaf(j, p)
  }

  ghost predicate ShipsLeaf(j: Job, p: Path) {
    exists m :: m in j.members && !m.what.Dir? && m.path == p
  }

  /** Of a manifest, the directories are left and what nobody took. */
  ghost predicate Spared(all: seq<FileEntry>, left: seq<FileEntry>, jobs: seq<Job>, k: Key) {
    && |left| <= |all|
    && (|left| == |all| ==> left == all)
    && forall e :: e in left <==> e in all && (e.kind.Dir? || !TakenFrom(jobs, k, e.path))
  }

  /** A package that lost something provides what it still names; one that did not, what it did. */
  ghost predicate StillProvides(was: seq<Provide<Path>>, now: seq<Provide<Path>>, all: seq<FileEntry>, left: seq<FileEntry>) {
    if left == all then now == was
    else forall p :: p in now <==> p in was && exists e :: e in left && e.path == p.path
  }

  lemma {:induction false} OwnProvidesAre(ps: seq<Provide<Path>>, own: set<Path>)
    ensures forall p :: p in OwnProvides(ps, own) <==> p in ps && p.path in own
  {
    if ps != [] {
      OwnProvidesAre(ps[1..], own);
    }
  }

  ghost predicate Passed(st: State, r: State, jobs: seq<Job>, k: Key)
    requires k in st.installed
  {
    && k in r.installed && r.installed[k] == st.installed[k].(manifest := r.installed[k].manifest)
    && Spared(st.installed[k].manifest, r.installed[k].manifest, jobs, k)
    && StillProvides(ProvidesOf(st, k), ProvidesOf(r, k), st.installed[k].manifest, r.installed[k].manifest)
  }

  lemma OnePassed(st: State, j: Job, k: Key)
    requires k in st.installed
    ensures Passed(st, DispossessOne(st, j), [j], k)
  {
    var all, taken := st.installed[k].manifest, Taken(j);
    WithoutEntries(all, taken);
    var left := DispossessOne(st, j).installed[k].manifest;
    OwnProvidesAre(ProvidesOf(st, k), PathSet(Without(all, taken)));
    assert forall p :: p in taken <==> ShipsLeaf(j, p);
    assert j in [j];
  }

  lemma SparedMore(all: seq<FileEntry>, mid: seq<FileEntry>, left: seq<FileEntry>, j: Job, rest: seq<Job>, jobs: seq<Job>, k: Key)
    requires jobs == [j] + rest && Spared(all, mid, [j], k) && Spared(mid, left, rest, k)
    ensures Spared(all, left, jobs, k)
  {
    assert forall o :: o in jobs <==> o == j || o in rest;
    assert forall p :: TakenFrom(jobs, k, p) <==> TakenFrom([j], k, p) || TakenFrom(rest, k, p);
  }

  lemma {:induction false} EachPassed(st: State, jobs: seq<Job>, k: Key)
    requires k in st.installed
    ensures Passed(st, Dispossess(st, jobs), jobs, k)
    decreases |jobs|
  {
    if jobs != [] {
      var mid := DispossessOne(st, jobs[0]);
      OnePassed(st, jobs[0], k);
      EachPassed(mid, jobs[1..], k);
      SparedMore(st.installed[k].manifest, mid.installed[k].manifest, Dispossess(st, jobs).installed[k].manifest, jobs[0], jobs[1..], jobs, k);
    }
  }

  // ------------------------------------------------------------------------ the records

  /** A shared library a manifest names as a file, by what the disk holds there. */
  ghost predicate LibraryAt(env: Env, d: Disk, manifest: seq<FileEntry>, p: Provide<Path>) {
    exists e :: (
      && e in manifest && e.kind.File? && e.path == p.path && d.Bytes(p.path).Some?
      && env.elf(d.Bytes(p.path).value) == Some(Library(p.soname, p.versioned)))
  }

  lemma {:induction false} ScanMeans(env: Env, d: Disk, manifest: seq<FileEntry>)
    ensures forall p :: p in Scan(env, d, manifest) <==> LibraryAt(env, d, manifest, p)
    decreases |manifest|
  {
    if manifest != [] {
      ScanMeans(env, d, manifest[1..]);
      forall p ensures p in Scan(env, d, manifest) <==> LibraryAt(env, d, manifest, p) {
        assert forall e :: e in manifest <==> e == manifest[0] || e in manifest[1..];
      }
    }
  }

  /** The last job of a key. */
  ghost predicate LastOf(jobs: seq<Job>, k: Key, i: nat) {
    i < |jobs| && jobs[i].key == k && forall l :: i < l < |jobs| ==> jobs[l].key != k
  }

  /** What a job's archive came to, from the disk it found. */
  ghost predicate CameTo(env: Env, j: Job, x: Extracted) {
    exists d, skip :: Extract(d, j.members, skip, env.keep) == Some(x)
  }

  /** A record as a job writes it, and what it is found to provide right after. */
  ghost predicate WrittenBy(env: Env, j: Job, x: Extracted, rec: Installed, ps: seq<Provide<Path>>) {
    && CameTo(env, j, x)
    && rec == Installed(j.version, j.depends, x.manifest, j.hash, j.users, j.flags)
    && ps == Scan(env, x.disk, x.manifest)
  }

  lemma {:induction false} LastWrites(env: Env, etc: set<FileEntry>, st: State, jobs: seq<Job>, kept: set<Path>, k: Key)
    returns (i: nat, x: Extracted)
    requires ApplyJobs(env, etc, st, jobs, kept).Some? && k in JobKeys(jobs)
    ensures LastOf(jobs, k, i)
    ensures var r := ApplyJobs(env, etc, st, jobs, kept).value.st; k in r.installed && WrittenBy(env, jobs[i], x, r.installed[k], ProvidesOf(r, k))
    decreases |jobs|
  {
    var j, rest := jobs[0], jobs[1..];
    x := Extract(st.disk, j.members, Skip(etc, st.disk, j.members), env.keep).value;
    var next := Recording(env, st, j, x);
    if k in JobKeys(rest) {
      i, x := LastWrites(env, etc, next, rest, kept + PathSet(x.manifest), k);
      i := i + 1;
      assert forall l :: i < l < |jobs| ==> jobs[l] == rest[l - 1];
    } else {
      i := 0;
      OthersStay(env, etc, next, rest, kept + PathSet(x.manifest), k);
      assert forall l :: 0 < l < |jobs| ==> jobs[l] == rest[l - 1] && rest[l - 1] in rest;
    }
  }

  lemma {:induction false} OthersStay(env: Env, etc: set<FileEntry>, st: State, jobs: seq<Job>, kept: set<Path>, k: Key)
    requires ApplyJobs(env, etc, st, jobs, kept).Some? && k !in JobKeys(jobs)
    ensures var r := ApplyJobs(env, etc, st, jobs, kept).value.st;
      && (k in st.installed <==> k in r.installed) && (k in st.installed ==> r.installed[k] == st.installed[k])
      && ProvidesOf(r, k) == ProvidesOf(st, k)
    decreases |jobs|
  {
    if jobs != [] {
      var j, rest := jobs[0], jobs[1..];
      var x := Extract(st.disk, j.members, Skip(etc, st.disk, j.members), env.keep).value;
      assert j.key in JobKeys(jobs);
      assert forall o :: o in rest ==> o in jobs;
      OthersStay(env, etc, Recording(env, st, j, x), rest, kept + PathSet(x.manifest), k);
    }
  }

  // -------------------------------------------------------------------- after the batch

  lemma AfterPass(env: Env, st: State, jobs: seq<Job>, k: Key)
    requires Apply(env, st, jobs).Some? && k in Batch(env, st, jobs).value.st.installed
    ensures Passed(Batch(env, st, jobs).value.st, Apply(env, st, jobs).value, jobs, k)
  {
    HeldRecords(env, st, jobs);
    EachPassed(Held(env, st, jobs).st, jobs, k);
  }

  /** A package the batch does not name keeps its record but for what the batch took of it. */
  lemma UnnamedKept(env: Env, st: State, jobs: seq<Job>, k: Key)
    requires Apply(env, st, jobs).Some? && forall j :: j in jobs ==> j.key != k
    ensures k in Apply(env, st, jobs).value.installed <==> k in st.installed
    ensures k in st.installed ==> Passed(st, Apply(env, st, jobs).value, jobs, k)
  {
    OthersStay(env, EtcEntries(st), st, jobs, {}, k);
    KeysKept(env, st, jobs);
    if k in st.installed {
      AfterPass(env, st, jobs, k);
    }
  }

  lemma {:induction false} DispossessKeys(st: State, jobs: seq<Job>)
    ensures Dispossess(st, jobs).installed.Keys == st.installed.Keys
    decreases |jobs|
  {
    if jobs != [] {
      DispossessKeys(DispossessOne(st, jobs[0]), jobs[1..]);
    }
  }

  lemma KeysKept(env: Env, st: State, jobs: seq<Job>)
    requires Apply(env, st, jobs).Some?
    ensures Apply(env, st, jobs).value.installed.Keys == Batch(env, st, jobs).value.st.installed.Keys
  {
    HeldRecords(env, st, jobs);
    DispossessKeys(Held(env, st, jobs).st, jobs);
  }

  /** What the manifest of a named package holds in the end, of the members of the last archive of
      its name: the directories made on the way, the directories, and what no other package of
      the batch took. */
  ghost predicate ManifestOf(env: Env, jobs: seq<Job>, j: Job, manifest: seq<FileEntry>) {
    && (forall m :: m in j.members && (m.what.Dir? || !TakenFrom(jobs, j.key, m.path)) ==>
          exists e :: e in manifest && Noting.NotedAs(e, m, env.keep))
    && (forall e :: e in manifest ==>
          || Noting.OnTheWay(e, j.members)
          || exists m :: m in j.members && Noting.NotedAs(e, m, env.keep) && (m.what.Dir? || !TakenFrom(jobs, j.key, m.path)))
  }

  lemma ManifestLeft(env: Env, jobs: seq<Job>, j: Job, x: Extracted, left: seq<FileEntry>)
    requires CameTo(env, j, x) && Spared(x.manifest, left, jobs, j.key)
    ensures ManifestOf(env, jobs, j, left)
  {
    var d, skip :| Extract(d, j.members, skip, env.keep) == Some(x);
    Noting.MembersNoted(d, j.members, skip, env.keep);
    forall m | m in j.members && (m.what.Dir? || !TakenFrom(jobs, j.key, m.path))
      ensures exists e :: e in left && Noting.NotedAs(e, m, env.keep)
    {
      var e :| e in x.manifest && Noting.NotedAs(e, m, env.keep);
      assert e in left;
    }
    forall e | e in left && !Noting.OnTheWay(e, j.members)
      ensures exists m :: m in j.members && Noting.NotedAs(e, m, env.keep) && (m.what.Dir? || !TakenFrom(jobs, j.key, m.path))
    {
      var m :| m in j.members && Noting.NotedAs(e, m, env.keep);
    }
  }

  /** A package the batch names is recorded as the last archive of its name says, and provides the
      libraries that archive put on disk, all of it but for what other packages took. */
  lemma NamedRecorded(env: Env, st: State, jobs: seq<Job>, k: Key) returns (i: nat, x: Extracted)
    requires Apply(env, st, jobs).Some? && exists j :: j in jobs && j.key == k
    ensures LastOf(jobs, k, i) && CameTo(env, jobs[i], x) && k in Apply(env, st, jobs).value.installed
    ensures var (rec, j) := (Apply(env, st, jobs).value.installed[k], jobs[i]);
      && rec == Installed(j.version, j.depends, rec.manifest, j.hash, j.users, j.flags)
      && ManifestOf(env, jobs, j, rec.manifest)
    ensures var (r, left) := (Apply(env, st, jobs).value, Apply(env, st, jobs).value.installed[k].manifest);
      forall p :: p in ProvidesOf(r, k) <==> LibraryAt(env, x.disk, x.manifest, p) && (left == x.manifest || exists e :: e in left && e.path == p.path)
  {
    i, x := LastWrites(env, EtcEntries(st), st, jobs, {}, k);
    AfterPass(env, st, jobs, k);
    ScanMeans(env, x.disk, x.manifest);
    ManifestLeft(env, jobs, jobs[i], x, Apply(env, st, jobs).value.installed[k].manifest);
  }
}
