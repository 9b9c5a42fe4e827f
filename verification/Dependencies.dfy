/** What the checks before an install and a removal are worth. */
module Dependencies {
  import opened Paths
  import opened Disk
  import opened Records
  import opened Extraction
  import opened Lifecycle
  import opened Ownership

  // --------------------------------------------------------------- the order of a batch

  ghost predicate Distinct<T>(s: seq<T>) {
    forall i, k :: 0 <= i < k < |s| ==> s[i] != s[k]
  }

  /** The conflicts found are none exactly when no shipped path is owned or shipped twice. */
  lemma {:induction false} ClashingNone(owned: set<Path>, shipped: seq<Path>)
    ensures Clashing(owned, shipped) == [] <==> Distinct(shipped) && forall i :: 0 <= i < |shipped| ==> shipped[i] !in owned
    decreases |shipped|
  {
    if shipped != [] && shipped[0] !in owned {
      var rest := shipped[1..];
      ClashingNone(owned + {shipped[0]}, rest);
      assert forall i :: 0 <= i < |rest| ==> rest[i] == shipped[i + 1];
      assert forall i :: 0 < i < |shipped| ==> shipped[i] == rest[i - 1];
    }
  }

  lemma {:induction false} DistinctCounts<T>(s: seq<T>)
    ensures Distinct(s) <==> forall x :: multiset(s)[x] <= 1
  {
    if s != [] {
      var last, front := s[|s| - 1], s[..|s| - 1];
      assert s == front + [last];
      assert multiset(s) == multiset(front)[last := multiset(front)[last] + 1];
      DistinctCounts(front);
      assert forall i :: 0 <= i < |front| ==> front[i] == s[i];
      assert last in front <==> last in multiset(front);
      if forall x :: multiset(s)[x] <= 1 {
        forall x ensures multiset(front)[x] <= 1 {
          assert multiset(s)[x] <= 1;
        }
        assert multiset(s)[last] <= 1;
        assert last !in front;
      }
      if Distinct(s) {
        assert last !in front;
      }
    }
  }

  lemma {:induction false} LeafPathsSplit(a: seq<Job>, b: seq<Job>)
    ensures AllLeafPaths(a + b) == AllLeafPaths(a) + AllLeafPaths(b)
  {
    if a == [] {
      assert a + b == b;
    } else {
      LeafPathsSplit(a[1..], b);
      assert (a + b)[1..] == a[1..] + b && (a + b)[0] == a[0];
      var mine, front, back := LeafPaths(a[0].members), AllLeafPaths(a[1..]), AllLeafPaths(b);
      assert mine + (front + back) == (mine + front) + back;
    }
  }

  lemma MultisetRemoves<T>(a: seq<T>, b: seq<T>, i: nat)
    requires a != [] && i < |b| && b[i] == a[0] && multiset(a) == multiset(b)
    ensures multiset(a[1..]) == multiset(b[..i] + b[i + 1..])
  {
    assert a == [a[0]] + a[1..];
    assert b == b[..i] + ([a[0]] + b[i + 1..]);
    assert multiset(b) == multiset(b[..i]) + (multiset{a[0]} + multiset(b[i + 1..]));
    assert multiset(a) - multiset{a[0]} == multiset(a[1..]);
    assert multiset(b) - multiset{a[0]} == multiset(b[..i]) + multiset(b[i + 1..]);
  }

  lemma LeafPathsAround(left: seq<Job>, j: Job, right: seq<Job>)
    ensures multiset(AllLeafPaths(left + ([j] + right))) == multiset(LeafPaths(j.members)) + multiset(AllLeafPaths(left + right))
  {
    LeafPathsSplit(left, right);
    LeafPathsSplit(left, [j] + right);
    assert ([j] + right)[1..] == right;
    assert AllLeafPaths([j] + right) == LeafPaths(j.members) + AllLeafPaths(right);
  }

  lemma FindFirst<T>(a: seq<T>, b: seq<T>) returns (i: nat)
    requires a != [] && multiset(a) == multiset(b)
    ensures i < |b| && b[i] == a[0]
    ensures multiset(a[1..]) == multiset(b[..i] + b[i + 1..])
    ensures b == b[..i] + ([a[0]] + b[i + 1..])
  {
    assert a[0] in multiset(a);
    i :| 0 <= i < |b| && b[i] == a[0];
    MultisetRemoves(a, b, i);
  }

  lemma {:induction false} LeafPathsPermuted(a: seq<Job>, b: seq<Job>)
    requires multiset(a) == multiset(b)
    ensures multiset(AllLeafPaths(a)) == multiset(AllLeafPaths(b))
    decreases |a|
  {
    if a == [] {
      assert |multiset(b)| == |b|;
    } else {
      var i := FindFirst(a, b);
      var left, right := b[..i], b[i + 1..];
      LeafPathsPermuted(a[1..], left + right);
      LeafPathsAround(left, a[0], right);
      assert AllLeafPaths(a) == LeafPaths(a[0].members) + AllLeafPaths(a[1..]);
    }
  }

  lemma SameElements<T>(a: seq<T>, b: seq<T>)
    requires multiset(a) == multiset(b)
    ensures forall x :: x in a <==> x in b
  {
    assert forall x :: x in a <==> x in multiset(a);
    assert forall x :: x in b <==> x in multiset(b);
  }

  lemma AcceptsOther(st: State, a: seq<Job>, b: seq<Job>)
    requires multiset(a) == multiset(b) && Accepts(st, a)
    ensures Accepts(st, b)
  {
    var p, q := AllLeafPaths(a), AllLeafPaths(b);
    LeafPathsPermuted(a, b);
    DistinctCounts(p);
    DistinctCounts(q);
    SameElements(p, q);
    SameElements(a, b);
    assert JobKeys(a) == JobKeys(b);
    assert Distinct(p);
    assert forall x :: x in p ==> !Owned(st, JobKeys(a), x);
    forall j, d | j in b && d in j.depends ensures !Unmet(st, b, j, d) {
      assert !Unmet(st, a, j, d);
    }
  }

  /** Whether a batch is accepted does not depend on the order its archives were named in. */
  lemma AcceptsPermuted(st: State, a: seq<Job>, b: seq<Job>)
    requires multiset(a) == multiset(b)
    ensures Accepts(st, a) <==> Accepts(st, b)
  {
    if Accepts(st, a) { AcceptsOther(st, a, b); }
    if Accepts(st, b) { AcceptsOther(st, b, a); }
  }

  // -------------------------------------------------------------- runtime dependencies

  ghost predicate Met(st: State, k: Key) {
    k in st.installed && forall d :: d in st.installed[k].depends && !d.make ==> Key(k.target, d.name) in st.installed
  }

  /** Every runtime dependency of everything installed is installed. */
  ghost predicate Closed(st: State) {
    forall k :: k in st.installed ==> Met(st, k)
  }

  ghost predicate OneTarget(jobs: seq<Job>) {
    forall a, b :: a in jobs && b in jobs ==> a.key.target == b.key.target
  }

  /** The job whose record stays: a batch may hold two archives of one package. */
  function LastOf(jobs: seq<Job>, k: Key): (j: Job)
    requires k in JobKeys(jobs)
    ensures j in jobs && j.key == k
  {
    if k in JobKeys(jobs[1..]) then LastOf(jobs[1..], k)
    else assert jobs == [jobs[0]] + jobs[1..]; jobs[0]
  }

  /** The dependencies a record ends up with are its last job's, or the ones it had. */
  ghost predicate DependsFrom(st: State, r: State, jobs: seq<Job>, k: Key) {
    k in r.installed
    && if k in JobKeys(jobs) then r.installed[k].depends == LastOf(jobs, k).depends
       else k in st.installed && st.installed[k].depends == r.installed[k].depends
  }

  lemma {:induction false} ApplyJobsDepends(env: Env, etc: set<FileEntry>, st: State, jobs: seq<Job>, kept: set<Path>, k: Key)
    requires ApplyJobs(env, etc, st, jobs, kept).Some?
    requires k in st.installed || k in JobKeys(jobs)
    ensures DependsFrom(st, ApplyJobs(env, etc, st, jobs, kept).value.st, jobs, k)
    decreases |jobs|
  {
    if jobs != [] {
      var j, rest := jobs[0], jobs[1..];
      var x := Extract(st.disk, j.members, Skip(etc, st.disk, j.members), env.keep).value;
      assert JobKeys(jobs) == {j.key} + JobKeys(rest);
      ApplyJobsDepends(env, etc, Recording(env, st, j, x), rest, kept + PathSet(x.manifest), k);
    }
  }

  lemma {:induction false} DispossessDepends(st: State, jobs: seq<Job>, k: Key)
    requires k in st.installed
    ensures var r := Dispossess(st, jobs);
      r.installed.Keys == st.installed.Keys && r.installed[k].depends == st.installed[k].depends
    decreases |jobs|
  {
    if jobs != [] {
      DispossessDepends(DispossessOne(st, jobs[0]), jobs[1..], k);
    }
  }

  lemma ApplyDepends(env: Env, st: State, jobs: seq<Job>)
    requires Apply(env, st, jobs).Some? && OwnLibraries(st)
    ensures var r := Apply(env, st, jobs).value;
      && r.installed.Keys == st.installed.Keys + JobKeys(jobs)
      && forall k :: k in r.installed ==> DependsFrom(st, r, jobs, k)
  {
    ApplyRecords(env, st, jobs);
    HeldRecords(env, st, jobs);
    forall k | k in Apply(env, st, jobs).value.installed
      ensures DependsFrom(st, Apply(env, st, jobs).value, jobs, k)
    {
      ApplyJobsDepends(env, EtcEntries(st), st, jobs, {}, k);
      DispossessDepends(Held(env, st, jobs).st, jobs, k);
    }
  }

  /** What the check has to have found for a batch to leave the database closed: a dependency
      the batch itself brings has to be brought for the target that needs it. */
  ghost predicate Brings(st: State, jobs: seq<Job>, j: Job) {
    forall d :: d in j.depends && !d.make ==>
      Key(j.key.target, d.name) in st.installed || Key(j.key.target, d.name) in JobKeys(jobs)
  }

  ghost predicate AllBring(st: State, jobs: seq<Job>) {
    forall k :: k in JobKeys(jobs) ==> Brings(st, jobs, LastOf(jobs, k))
  }

  /** A batch keeps the database closed exactly when every dependency it brings
      itself is brought for the right target; the check does not look at the target. */
  lemma ApplyCloses(env: Env, st: State, jobs: seq<Job>)
    requires Apply(env, st, jobs).Some? && OwnLibraries(st) && Closed(st)
    ensures Closed(Apply(env, st, jobs).value) <==> AllBring(st, jobs)
  {
    var r := Apply(env, st, jobs).value;
    ApplyDepends(env, st, jobs);
    if AllBring(st, jobs) {
      forall k | k in r.installed ensures Met(r, k) {
        assert DependsFrom(st, r, jobs, k);
        if k !in JobKeys(jobs) { assert Met(st, k); }
      }
    }
    if Closed(r) {
      forall k | k in JobKeys(jobs) ensures Brings(st, jobs, LastOf(jobs, k)) {
        assert DependsFrom(st, r, jobs, k) && Met(r, k);
      }
    }
  }

  lemma OneTargetCloses(env: Env, st: State, jobs: seq<Job>)
    requires Apply(env, st, jobs).Some? && OwnLibraries(st) && Closed(st) && Accepts(st, jobs) && OneTarget(jobs)
    ensures Closed(Apply(env, st, jobs).value)
  {
    var r := Apply(env, st, jobs).value;
    ApplyDepends(env, st, jobs);
    forall k | k in r.installed ensures Met(r, k) {
      assert DependsFrom(st, r, jobs, k);
      if k in JobKeys(jobs) {
        var j := LastOf(jobs, k);
        forall d | d in j.depends && !d.make ensures Key(k.target, d.name) in r.installed {
          assert !Unmet(st, jobs, j, d);
        }
      } else {
        assert Met(st, k);
      }
    }
  }

  /** The names a removal gets to: those up to the first one it has had already. */
  function Once(names: seq<string>, had: set<string>): seq<string>
    decreases |names|
  {
    if names == [] || names[0] in had then [] else [names[0]] + Once(names[1..], had + {names[0]})
  }

  function KeysOf(target: string, names: seq<string>): set<Key> {
    set n <- names :: Key(target, n)
  }

  lemma {:induction false} OnceIn(names: seq<string>, had: set<string>)
    ensures forall n :: n in Once(names, had) ==> n in names && n !in had
    decreases |names|
  {
    if names != [] && names[0] !in had {
      OnceIn(names[1..], had + {names[0]});
    }
  }

  lemma {:induction false} OnceAll(names: seq<string>, had: set<string>)
    requires Distinct(names) && forall n :: n in names ==> n !in had
    ensures Once(names, had) == names
    decreases |names|
  {
    if names != [] {
      var rest := names[1..];
      forall n | n in rest ensures n !in had + {names[0]} {
        var i :| 0 <= i < |rest| && rest[i] == n;
        assert names[i + 1] == n && names[0] != names[i + 1];
      }
      assert forall i :: 0 <= i < |rest| ==> rest[i] == names[i + 1];
      OnceAll(rest, had + {names[0]});
    }
  }

  /** A removal takes the records of exactly those names. */
  lemma {:induction false} RemoveAllOnce(st: State, target: string, names: seq<string>, recs: map<string, Installed>, had: set<string>)
    requires forall n <- names :: n in recs && (Key(target, n) in st.installed <==> n !in had)
    ensures RemoveAll(st, target, names, recs).st.installed == st.installed - KeysOf(target, Once(names, had))
    decreases |names|
  {
    if names != [] {
      var k, rest := Key(target, names[0]), names[1..];
      var rec := recs[names[0]];
      var after := Forget(st.(disk := Unlink(Swept(st.disk, NOTHING), rec.manifest, Sums(rec.manifest)).disk), k);
      if k in st.installed {
        RemoveAllOnce(after, target, rest, recs, had + {names[0]});
        assert KeysOf(target, [names[0]] + Once(rest, had + {names[0]})) == {k} + KeysOf(target, Once(rest, had + {names[0]}));
      } else {
        assert st.installed - {k} == st.installed;
      }
    }
  }

  ghost predicate Refused(st: State, target: string, names: seq<string>, force: bool) {
    (exists n <- names :: Key(target, n) !in st.installed) || (!force && Needed(st, target, names))
  }

  /** Nothing of the target that a removal does not get to needs what it does. */
  ghost predicate Unneeded(st: State, target: string, names: seq<string>) {
    forall k :: k in st.installed && k.target == target && k.name !in Once(names, {}) ==>
      !Needs(st.installed[k], Once(names, {}))
  }

  /** A removal keeps the database closed exactly when it is refused, or when nothing it does
      not get to needs what it does: a name given twice ends it there. */
  lemma RemoveCloses(st: State, target: string, names: seq<string>, force: bool)
    requires Closed(st)
    ensures Closed(Remove(st, target, names, force).st) <==> Refused(st, target, names, force) || Unneeded(st, target, names)
  {
    if !Refused(st, target, names, force) {
      var once, r := Once(names, {}), Remove(st, target, names, force).st;
      RemoveAllOnce(st, target, names, RecordsOf(st, target, names), {});
      OnceIn(names, {});
      assert r.installed == st.installed - KeysOf(target, once);
      if Unneeded(st, target, names) {
        forall k | k in r.installed ensures Met(r, k) {
          StillMet(st, r, target, once, k);
        }
      } else {
        var k :| k in st.installed && k.target == target && k.name !in once && Needs(st.installed[k], once);
        var d :| d in st.installed[k].depends && !d.make && d.name in once;
        assert k !in KeysOf(target, once) && Key(target, d.name) in KeysOf(target, once);
        assert !Met(r, k);
      }
    }
  }

  lemma StillMet(st: State, r: State, target: string, once: seq<string>, k: Key)
    requires Closed(st) && r.installed == st.installed - KeysOf(target, once) && k in r.installed
    requires k.target == target ==> k.name !in once ==> !Needs(st.installed[k], once)
    ensures Met(r, k)
  {
    assert Met(st, k);
    assert k.target == target ==> k.name !in once;
    forall d | d in r.installed[k].depends && !d.make ensures Key(k.target, d.name) in r.installed {
      assert k.target == target ==> d.name !in once;
    }
  }

  /** An unforced removal of names given once keeps it. */
  lemma DistinctCloses(st: State, target: string, names: seq<string>)
    requires Closed(st) && Distinct(names)
    ensures Closed(Remove(st, target, names, false).st)
  {
    OnceAll(names, {});
    RemoveCloses(st, target, names, false);
  }

  /** A command that keeps a closed database closed: a checked batch for one target, or one that
      brings what it needs; a removal that is refused, or that nothing left behind minds. */
  ghost predicate Sound(st: State, c: Command) {
    match c
    case Install(env, jobs, force) =>
      || (!force && OneTarget(jobs))
      || AllBring(st, jobs)
    case Uninstall(target, names, force) => Refused(st, target, names, force) || Unneeded(st, target, names)
  }

  ghost predicate SoundThroughout(st: State, cs: seq<Command>)
    decreases |cs|
  {
    cs != [] ==> Sound(st, cs[0]) && (Perform(st, cs[0]).Some? ==> SoundThroughout(Perform(st, cs[0]).value, cs[1..]))
  }

  lemma PerformCloses(st: State, c: Command)
    requires OwnLibraries(st) && Closed(st) && Sound(st, c) && Perform(st, c).Some?
    ensures Closed(Perform(st, c).value)
  {
    match c
    case Install(env, jobs, force) =>
      if force || Accepts(st, jobs) {
        if !force && OneTarget(jobs) {
          OneTargetCloses(env, st, jobs);
        } else {
          ApplyCloses(env, st, jobs);
        }
      }
    case Uninstall(target, names, force) =>
      RemoveCloses(st, target, names, force);
  }

  lemma {:induction false} ReplayCloses(st: State, cs: seq<Command>)
    requires OwnLibraries(st) && Exclusive(st) && Closed(st)
    requires SoundThroughout(st, cs) && Replay(st, cs).Some?
    ensures Closed(Replay(st, cs).value)
    decreases |cs|
  {
    if cs != [] {
      PerformCloses(st, cs[0]);
      ReplayKeeps(st, [cs[0]]);
      assert Replay(st, [cs[0]]) == Perform(st, cs[0]);
      ReplayCloses(Perform(st, cs[0]).value, cs[1..]);
    }
  }

  /** A command that went through its check, one target and no name twice. */
  ghost predicate Checked(c: Command) {
    match c
    case Install(_, jobs, force) => !force && OneTarget(jobs)
    case Uninstall(_, names, force) => !force && Distinct(names)
  }

  /** Checked commands are sound wherever they are run. */
  lemma {:induction false} CheckedSound(st: State, cs: seq<Command>)
    requires forall c :: c in cs ==> Checked(c)
    ensures SoundThroughout(st, cs)
    decreases |cs|
  {
    if cs != [] {
      assert Checked(cs[0]) && cs == [cs[0]] + cs[1..];
      if cs[0].Uninstall? {
        OnceAll(cs[0].names, {});
      }
      if Perform(st, cs[0]).Some? {
        CheckedSound(Perform(st, cs[0]).value, cs[1..]);
      }
    }
  }

  /** Through every run of sound commands, whatever is installed has what it needs; and a run of
      checked ones is sound. */
  lemma ClosedAlways(disk: Disk, preserved: map<Key, map<Path, FileEntry>>, cs: seq<Command>)
    requires Replay(Empty(disk, preserved), cs).Some?
    requires SoundThroughout(Empty(disk, preserved), cs) || forall c :: c in cs ==> Checked(c)
    ensures Closed(Replay(Empty(disk, preserved), cs).value)
  {
    if forall c :: c in cs ==> Checked(c) {
      CheckedSound(Empty(disk, preserved), cs);
    }
    ReplayCloses(Empty(disk, preserved), cs);
  }

  // ------------------------------------------------------- where the checks fall short

  const BAR := Dep("bar", false, false, None)

  function Bare(target: string, name: string, depends: seq<Dep>): Job {
    Job(Key(target, name), Version("1", 1), depends, [], "", [], [])
  }

  lemma {:induction false} BareApplies(env: Env, etc: set<FileEntry>, st: State, jobs: seq<Job>, kept: set<Path>)
    requires forall j :: j in jobs ==> j.members == []
    ensures ApplyJobs(env, etc, st, jobs, kept).Some?
    decreases |jobs|
  {
    if jobs != [] {
      BareApplies(env, etc, Recording(env, st, jobs[0], Extracted(st.disk, [])), jobs[1..], kept + PathSet([]));
    }
  }

  const MIXED := [Bare("x86_64-gnu", "foo", [BAR]), Bare("x86_64-musl", "bar", [])]

  lemma MixedAccepted(disk: Disk)
    ensures Accepts(Empty(disk, map[]), MIXED)
  {
    assert MIXED[1].key.name == "bar" && MIXED[1] in MIXED;
    assert MIXED[1..] == [MIXED[1]];
    assert AllLeafPaths([MIXED[1]]) == [] && LeafPaths(MIXED[0].members) == [];
  }

  lemma MixedBrings(disk: Disk)
    ensures !Brings(Empty(disk, map[]), MIXED, MIXED[0])
  {
    assert "x86_64-gnu"[7] != "x86_64-musl"[7];
    assert "foo"[0] != "bar"[0];
    assert BAR in MIXED[0].depends;
    assert JobKeys(MIXED) == {MIXED[0].key, MIXED[1].key};
  }

  /** A package of the other target satisfies the check and not the dependency. */
  lemma MixedBatch(env: Env, disk: Disk)
    ensures var st := Empty(disk, map[]);
      Accepts(st, MIXED) && Apply(env, st, MIXED).Some? && !Closed(Apply(env, st, MIXED).value)
  {
    var st := Empty(disk, map[]);
    MixedAccepted(disk);
    MixedBrings(disk);
    BareApplies(env, EtcEntries(st), st, MIXED, {});
    ApplyCloses(env, st, MIXED);
    assert MIXED[0] in MIXED && MIXED[0].key.target != MIXED[1].key.target;
    assert LastOf(MIXED, MIXED[0].key) == MIXED[0];
  }

  /** A name given twice ends a removal at its second turn, and a package named after it is left
      without what it needs. */
  lemma RepeatedName(disk: Disk, target: string)
    ensures var rec := (depends: seq<Dep>) => Installed(Version("1", 1), depends, [], "", [], []);
      var st := State(disk, map[Key(target, "bar") := rec([]), Key(target, "foo") := rec([BAR])], map[], map[]);
      var r := Remove(st, target, ["bar", "bar", "foo"], false);
      Closed(st) && r.outcome == HalfGone && !Closed(r.st)
  {
    var bare, needs := Installed(Version("1", 1), [], [], "", [], []), Installed(Version("1", 1), [BAR], [], "", [], []);
    var k, l := Key(target, "bar"), Key(target, "foo");
    assert "bar"[0] != "foo"[0];
    var st := State(disk, map[k := bare, l := needs], map[], map[]);
    var names := ["bar", "bar", "foo"];
    var recs := RecordsOf(st, target, names);
    var once := Forget(st, k);
    assert once.installed == map[l := needs];
    assert names[1..][0] == "bar";
    assert RemoveAll(st, target, names, recs).st == RemoveAll(once, target, names[1..], recs).st;
    assert RemoveAll(st, target, names, recs).outcome == RemoveAll(once, target, names[1..], recs).outcome;
    assert RemoveAll(once, target, names[1..], recs) == Removal(Forget(once, k), HalfGone, []);
    var r := Remove(st, target, names, false);
    assert !Needed(st, target, names);
    assert l in r.st.installed && !Met(r.st, l) by {
      assert BAR in needs.depends;
    }
  }
}
