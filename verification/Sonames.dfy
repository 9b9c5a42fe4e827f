/** What keeps the libraries of a replaced version, and the links to them, in reach. */
module Sonames {
  import opened Paths
  import opened Disk
  import opened Records
  import opened Extraction
  import opened Lifecycle
  import opened Ownership
  import opened Sweep
  import opened Losses

  // ------------------------------------------------------------------------ one record

  lemma {:induction false} FilteredEntries(manifest: seq<FileEntry>, stay: set<Path>, kept: set<Path>)
    ensures forall e :: e in Filtered(manifest, stay, kept) <==> e in manifest && Preserves(stay, kept, e)
  {
    if manifest != [] {
      FilteredEntries(manifest[1..], stay, kept);
    }
  }

  lemma {:induction false} JoinedPaths(record: map<Path, FileEntry>, m: seq<FileEntry>)
    ensures var r := Joined(record, m);
      && r.Keys == record.Keys + PathSet(m)
      && (forall p :: p in record ==> r[p] == record[p])
      && (forall p :: p in r && p !in record ==> r[p] in m && r[p].path == p)
    decreases |m|
  {
    if m != [] {
      var next := if m[0].path in record then record else record[m[0].path := m[0]];
      JoinedPaths(next, m[1..]);
      assert PathSet(m) == {m[0].path} + PathSet(m[1..]);
    }
  }

  lemma SubsetSize<T>(a: set<T>, b: set<T>)
    requires a <= b
    ensures |a| == |b| <==> a == b
  {
    assert b == a + (b - a);
    assert |b| == |a| + |b - a|;
  }

  /** Some entry brings a path the record does not hold. */
  ghost predicate Grows(record: map<Path, FileEntry>, m: seq<FileEntry>) {
    exists e :: e in m && e.path !in record
  }

  /** The record is the old one less what the batch took, plus the new entries, exactly when
      there is a new path to add; otherwise it is left alone, taken paths and all. */
  lemma RecordRewritten(st: State, k: Key, m: seq<FileEntry>, kept: set<Path>)
    requires forall e :: e in m ==> e.path !in kept
    ensures var (was, now) := (PreservedOf(st, k), PreservedOf(PreserveOne(st, k, m, kept), k));
      && (Grows(was, m) ==>
            && now.Keys == (was.Keys - kept) + PathSet(m)
            && (forall p :: p in was && p !in kept ==> now[p] == was[p])
            && (forall p :: p in now && p !in was ==> now[p] in m && now[p].path == p))
      && (!Grows(was, m) ==> now == was)
  {
    var was := PreservedOf(st, k);
    var had := map p | p in was && p !in kept :: was[p];
    var all := Joined(had, m);
    JoinedPaths(had, m);
    assert had.Keys == was.Keys - kept;
    SubsetSize(had.Keys, all.Keys);
    assert |had| == |had.Keys| && |all| == |all.Keys|;
    assert (all.Keys == had.Keys) <==> PathSet(m) <= had.Keys;
    if Grows(was, m) {
      var e :| e in m && e.path !in was;
      assert e.path in PathSet(m);
    }
  }

  /** The intent that a path taken back stops being claimed: it holds exactly when the record
      has something new to hold. */
  lemma TakenBackCleared(st: State, k: Key, m: seq<FileEntry>, kept: set<Path>, p: Path)
    requires forall e :: e in m ==> e.path !in kept
    requires p in PreservedOf(st, k) && p in kept
    ensures p !in PreservedOf(PreserveOne(st, k, m, kept), k) <==> Grows(PreservedOf(st, k), m)
  {
    RecordRewritten(st, k, m, kept);
  }

  // -------------------------------------------------------------------------- the batch

  /** The jobs of a batch, and for each what its package was, what libraries that had, and what
      the archive provides. */
  datatype Round = Round(jobs: seq<Job>, was: seq<Option<Installed>>, before: seq<map<Path, string>>, carried: seq<seq<Provide<Path>>>)

  predicate Even(r: Round) {
    |r.jobs| == |r.was| == |r.before| == |r.carried|
  }

  function Tail(r: Round): Round
    requires Even(r) && r.jobs != []
  {
    Round(r.jobs[1..], r.was[1..], r.before[1..], r.carried[1..])
  }

  /** What each job keeps back, one turn after another. */
  function KeepsOf(r: Round, kept: set<Path>): (ms: seq<seq<FileEntry>>)
    requires Even(r)
    ensures |ms| == |r.jobs|
    decreases |r.jobs|
  {
    if r.jobs == [] then []
    else
      var m := Preserve(r.was[0], r.before[0], r.carried[0], kept);
      [m] + KeepsOf(Tail(r), kept + PathSet(m))
  }

  /** The paths kept when job `j` has its turn. */
  function KeptAt(kept: set<Path>, ms: seq<seq<FileEntry>>, j: nat): set<Path>
    requires j <= |ms|
  {
    if j == 0 then kept else KeptAt(kept, ms, j - 1) + PathSet(ms[j - 1])
  }

  /** The records then. */
  function RecordsAt(s: Stay, jobs: seq<Job>, ms: seq<seq<FileEntry>>, j: nat): State
    requires j <= |ms| == |jobs|
    decreases j
  {
    if j == 0 then s.st
    else PreserveOne(RecordsAt(s, jobs, ms, j - 1), jobs[j - 1].key, ms[j - 1], KeptAt(s.kept, ms, j - 1))
  }

  lemma {:induction false} KeptTail(kept: set<Path>, ms: seq<seq<FileEntry>>, j: nat)
    requires 0 < j <= |ms|
    ensures KeptAt(kept, ms, j) == KeptAt(kept + PathSet(ms[0]), ms[1..], j - 1)
    decreases j
  {
    if j > 1 {
      KeptTail(kept, ms, j - 1);
    }
  }

  lemma {:induction false} RecordsTail(s: Stay, jobs: seq<Job>, ms: seq<seq<FileEntry>>, j: nat)
    requires 0 < j <= |ms| == |jobs|
    ensures RecordsAt(s, jobs, ms, j)
      == RecordsAt(Stay(PreserveOne(s.st, jobs[0].key, ms[0], s.kept), s.kept + PathSet(ms[0])), jobs[1..], ms[1..], j - 1)
    decreases j
  {
    if j > 1 {
      RecordsTail(s, jobs, ms, j - 1);
      KeptTail(s.kept, ms, j - 1);
    }
  }

  /** A round is its turns. */
  lemma {:induction false} RoundTurns(r: Round, s: Stay)
    requires Even(r)
    ensures var ms := KeepsOf(r, s.kept);
      PreserveJobs(s.st, r.jobs, r.was, r.before, r.carried, s.kept) == Stay(RecordsAt(s, r.jobs, ms, |ms|), KeptAt(s.kept, ms, |ms|))
    decreases |r.jobs|
  {
    if r.jobs != [] {
      var ms := KeepsOf(r, s.kept);
      var next := Stay(PreserveOne(s.st, r.jobs[0].key, ms[0], s.kept), s.kept + PathSet(ms[0]));
      RoundTurns(Tail(r), next);
      assert ms[1..] == KeepsOf(Tail(r), next.kept);
      KeptTail(s.kept, ms, |ms|);
      RecordsTail(s, r.jobs, ms, |ms|);
    }
  }

  lemma {:induction false} KeepsAt(r: Round, kept: set<Path>, j: nat)
    requires Even(r) && j < |r.jobs|
    ensures var ms := KeepsOf(r, kept); ms[j] == Preserve(r.was[j], r.before[j], r.carried[j], KeptAt(kept, ms, j))
    decreases |r.jobs|
  {
    if j > 0 {
      var ms := KeepsOf(r, kept);
      KeepsAt(Tail(r), kept + PathSet(ms[0]), j - 1);
      assert ms[1..] == KeepsOf(Tail(r), kept + PathSet(ms[0]));
      KeptTail(kept, ms, j);
    }
  }

  lemma {:induction false} KeptStays(kept: set<Path>, ms: seq<seq<FileEntry>>, i: nat, j: nat, p: Path)
    requires i <= j <= |ms| && p in KeptAt(kept, ms, i)
    ensures p in KeptAt(kept, ms, j)
    decreases j
  {
    if i < j {
      KeptStays(kept, ms, i, j - 1, p);
    }
  }

  /** Where a path came to be kept. */
  lemma {:induction false} KeptWhere(kept: set<Path>, ms: seq<seq<FileEntry>>, j: nat, p: Path) returns (a: nat)
    requires j <= |ms| && p in KeptAt(kept, ms, j) && p !in kept
    ensures a < j && p in PathSet(ms[a])
    decreases j
  {
    if p in PathSet(ms[j - 1]) {
      a := j - 1;
    } else {
      a := KeptWhere(kept, ms, j - 1, p);
    }
  }

  /** None of the first `n` turns keeps a path twice. */
  ghost predicate Fresh(kept: set<Path>, ms: seq<seq<FileEntry>>, n: nat)
    requires n <= |ms|
  {
    n == 0 || (Fresh(kept, ms, n - 1) && NoneKept(KeptAt(kept, ms, n - 1), ms[n - 1]))
  }

  ghost predicate NoneKept(kept: set<Path>, m: seq<FileEntry>) {
    forall e :: e in m ==> e.path !in kept
  }

  lemma {:induction false} FreshAt(kept: set<Path>, ms: seq<seq<FileEntry>>, n: nat, l: nat)
    requires l < n <= |ms| && Fresh(kept, ms, n)
    ensures NoneKept(KeptAt(kept, ms, l), ms[l])
    decreases n
  {
    if l < n - 1 {
      FreshAt(kept, ms, n - 1, l);
    }
  }

  lemma {:induction false} KeepsFresh(r: Round, kept: set<Path>, n: nat)
    requires Even(r) && n <= |r.jobs|
    ensures Fresh(kept, KeepsOf(r, kept), n)
    decreases n
  {
    if n > 0 {
      KeepsFresh(r, kept, n - 1);
      var ms, l := KeepsOf(r, kept), n - 1;
      KeepsAt(r, kept, l);
      KeepsNone(r.was[l], r.before[l], r.carried[l], KeptAt(kept, ms, l));
    }
  }

  lemma KeepsNone(was: Option<Installed>, before: map<Path, string>, now: seq<Provide<Path>>, kept: set<Path>)
    ensures NoneKept(kept, Preserve(was, before, now, kept))
  {
    if was.Some? {
      FilteredEntries(was.value.manifest, Staying(before, now, kept), kept);
    }
  }

  /** A turn at which a package's record gets a path it does not hold. */
  ghost predicate GrowsAt(s: Stay, jobs: seq<Job>, ms: seq<seq<FileEntry>>, l: nat)
    requires l < |ms| == |jobs|
  {
    Grows(PreservedOf(RecordsAt(s, jobs, ms, l), jobs[l].key), ms[l])
  }

  /** Between the turns `a` and `j` no archive of `a`'s package makes its record grow. */
  ghost predicate Undisturbed(s: Stay, jobs: seq<Job>, ms: seq<seq<FileEntry>>, a: nat, j: nat)
    requires a < j <= |ms| == |jobs|
  {
    forall l :: a < l < j && jobs[l].key == jobs[a].key ==> !GrowsAt(s, jobs, ms, l)
  }

  /** One more turn leaves a kept path in its record, or takes it out for good. */
  lemma OneTurn(st: State, key: Key, m: seq<FileEntry>, kept: set<Path>, k: Key, p: Path)
    requires NoneKept(kept, m) && p in kept
    ensures p in PreservedOf(PreserveOne(st, key, m, kept), k) <==> p in PreservedOf(st, k) && !(key == k && Grows(PreservedOf(st, key), m))
  {
    if key == k {
      RecordRewritten(st, k, m, kept);
    } else {
      OtherRecord(st, key, m, kept, k);
    }
  }

  lemma NextRecords(s: Stay, jobs: seq<Job>, ms: seq<seq<FileEntry>>, l: nat, j: nat)
    requires l < |ms| == |jobs| && j == l + 1
    ensures RecordsAt(s, jobs, ms, j) == PreserveOne(RecordsAt(s, jobs, ms, l), jobs[l].key, ms[l], KeptAt(s.kept, ms, l))
  {
  }

  lemma RecordTurn(s: Stay, jobs: seq<Job>, ms: seq<seq<FileEntry>>, l: nat, j: nat, k: Key, p: Path)
    requires l < |ms| == |jobs| && j == l + 1 && NoneKept(KeptAt(s.kept, ms, l), ms[l]) && p in KeptAt(s.kept, ms, l)
    ensures p in PreservedOf(RecordsAt(s, jobs, ms, j), k) <==>
      p in PreservedOf(RecordsAt(s, jobs, ms, l), k) && !(jobs[l].key == k && GrowsAt(s, jobs, ms, l))
  {
    OneTurn(RecordsAt(s, jobs, ms, l), jobs[l].key, ms[l], KeptAt(s.kept, ms, l), k, p);
    NextRecords(s, jobs, ms, l, j);
  }

  lemma OtherRecord(st: State, a: Key, m: seq<FileEntry>, kept: set<Path>, b: Key)
    requires a != b
    ensures PreservedOf(PreserveOne(st, a, m, kept), b) == PreservedOf(st, b)
  {
  }

  /** What a turn keeps is in the record right after it. */
  lemma RecordedThen(s: Stay, jobs: seq<Job>, ms: seq<seq<FileEntry>>, a: nat, p: Path)
    requires a < |ms| == |jobs| && Fresh(s.kept, ms, |ms|) && p in PathSet(ms[a])
    ensures p in PreservedOf(RecordsAt(s, jobs, ms, a + 1), jobs[a].key) && p in KeptAt(s.kept, ms, a + 1)
  {
    FreshAt(s.kept, ms, |ms|, a);
    RecordRewritten(RecordsAt(s, jobs, ms, a), jobs[a].key, ms[a], KeptAt(s.kept, ms, a));
  }

  /** And stays there exactly as long as no later archive of the package makes it grow: the
      paths kept by then are filtered out first. */
  lemma {:induction false} RecordStays(s: Stay, jobs: seq<Job>, ms: seq<seq<FileEntry>>, a: nat, j: nat, p: Path)
    requires a < j <= |ms| == |jobs| && Fresh(s.kept, ms, |ms|)
    requires p in KeptAt(s.kept, ms, a + 1) && p in PreservedOf(RecordsAt(s, jobs, ms, a + 1), jobs[a].key)
    ensures p in KeptAt(s.kept, ms, j)
    ensures p in PreservedOf(RecordsAt(s, jobs, ms, j), jobs[a].key) <==> Undisturbed(s, jobs, ms, a, j)
    decreases j
  {
    if j == a + 1 {
      assert Undisturbed(s, jobs, ms, a, j);
    } else {
      var l: nat := j - 1;
      RecordStays(s, jobs, ms, a, l, p);
      StaysTurn(s, jobs, ms, a, l, j, p);
    }
  }

  lemma StaysTurn(s: Stay, jobs: seq<Job>, ms: seq<seq<FileEntry>>, a: nat, l: nat, j: nat, p: Path)
    requires a < l < j <= |ms| == |jobs| && j == l + 1 && Fresh(s.kept, ms, |ms|) && p in KeptAt(s.kept, ms, l)
    requires p in PreservedOf(RecordsAt(s, jobs, ms, l), jobs[a].key) <==> Undisturbed(s, jobs, ms, a, l)
    ensures p in KeptAt(s.kept, ms, j)
    ensures p in PreservedOf(RecordsAt(s, jobs, ms, j), jobs[a].key) <==> Undisturbed(s, jobs, ms, a, j)
  {
    KeptStays(s.kept, ms, l, j, p);
    FreshAt(s.kept, ms, |ms|, l);
    UndisturbedMore(s, jobs, ms, a, l, j);
    RecordTurn(s, jobs, ms, l, j, jobs[a].key, p);
  }

  lemma UndisturbedMore(s: Stay, jobs: seq<Job>, ms: seq<seq<FileEntry>>, a: nat, l: nat, j: nat)
    requires a < l < j <= |ms| == |jobs| && j == l + 1
    ensures Undisturbed(s, jobs, ms, a, j) <==>
      Undisturbed(s, jobs, ms, a, l) && !(jobs[l].key == jobs[a].key && GrowsAt(s, jobs, ms, l))
  {
  }

  lemma {:induction false} ScanFiles(env: Env, d: Disk, manifest: seq<FileEntry>)
    ensures forall l :: l in Scan(env, d, manifest) ==>
      d.IsLeaf(l.path) && exists e :: e in manifest && e.path == l.path && e.kind.File?
  {
    if manifest != [] {
      ScanFiles(env, d, manifest[1..]);
    }
  }

  lemma {:induction false} SonamesOf(ps: seq<Provide<Path>>)
    ensures forall p :: p in Lifecycle.Sonames(ps) ==> exists l :: l in ps && l.path == p
  {
    if ps != [] {
      SonamesOf(ps[..|ps| - 1]);
    }
  }

  /** What is read as a library before the batch is a file its record claims. */
  lemma LibrariesClaimed(env: Env, d: Disk, rec: Installed, p: Path)
    requires p in Libraries(env, d, Some(rec))
    ensures d.IsLeaf(p) && exists e :: e in rec.manifest && e.path == p && e.kind.File?
  {
    ScanFiles(env, d, rec.manifest);
    SonamesOf(Scan(env, d, rec.manifest));
  }

  /** Whatever is preserved was claimed, so packages cannot preserve each other's paths. */
  lemma PreserveClaims(env: Env, d: Disk, rec: Installed, now: seq<Provide<Path>>, kept: set<Path>)
    ensures forall e :: e in Preserve(Some(rec), Libraries(env, d, Some(rec)), now, kept) ==>
      e in rec.manifest && Claims(rec, e.path) && e.path !in kept
  {
    var before := Libraries(env, d, Some(rec));
    var stay := Staying(before, now, kept);
    FilteredEntries(rec.manifest, stay, kept);
    forall e | e in Filtered(rec.manifest, stay, kept) ensures Claims(rec, e.path) {
      if !e.kind.Link? {
        LibrariesClaimed(env, d, rec, e.path);
      }
    }
  }

  /** What is kept on a package's account is what it claims. */
  lemma KeepsClaims(env: Env, st: State, r: Round, kept: set<Path>, a: nat, k: Key, p: Path)
    requires Even(r) && a < |r.jobs| && r.was == WasOf(st, r.jobs) && r.before == BeforeOf(env, st.disk, r.was)
    requires p in PathSet(KeepsOf(r, kept)[a]) && Exclusive(st) && k in st.installed && Claims(st.installed[k], p)
    ensures r.jobs[a].key == k
  {
    KeepsAt(r, kept, a);
    assert r.was[a].Some?;
    PreserveClaims(env, st.disk, r.was[a].value, r.carried[a], KeptAt(kept, KeepsOf(r, kept), a));
  }

  ghost function RoundOf(env: Env, st: State, jobs: seq<Job>): Round
    requires Batch(env, st, jobs).Some?
  {
    var was := WasOf(st, jobs);
    Round(jobs, was, BeforeOf(env, st.disk, was), Batch(env, st, jobs).value.carried)
  }

  ghost function StartOf(env: Env, st: State, jobs: seq<Job>): Stay
    requires Batch(env, st, jobs).Some?
  {
    Stay(Batch(env, st, jobs).value.st, Batch(env, st, jobs).value.kept)
  }

  /** A library of a version going out, whose soname the version coming in does not carry and
      whose path no archive of the batch took. */
  ghost predicate Left(env: Env, st: State, jobs: seq<Job>, i: nat, p: Path)
    requires i < |jobs| && Batch(env, st, jobs).Some?
  {
    var (was, pass) := (WasOf(st, jobs), Batch(env, st, jobs).value);
    && was[i].Some?
    && p in Libraries(env, st.disk, was[i])
    && Libraries(env, st.disk, was[i])[p] !in SonameSet(pass.carried[i])
    && p !in pass.kept
  }

  /** An entry that keeps such a library reachable: the file itself, or a link beside it. */
  ghost predicate Reaches(env: Env, st: State, jobs: seq<Job>, i: nat, p: Path, e: FileEntry)
    requires i < |jobs| && Batch(env, st, jobs).Some?
  {
    && Left(env, st, jobs, i, p)
    && e in st.installed[jobs[i].key].manifest && e.path !in Batch(env, st, jobs).value.kept
    && ((e.kind.File? && e.path == p) || (e.kind.Link? && Beside(e.path, e.kind.target) == Some(p)))
  }

  ghost predicate DistinctKeys(jobs: seq<Job>) {
    forall a, b :: 0 <= a < b < |jobs| ==> jobs[a].key != jobs[b].key
  }

  /** What the jobs of a batch keep. */
  ghost function BatchKeepsBack(env: Env, st: State, jobs: seq<Job>): (ms: seq<seq<FileEntry>>)
    requires Batch(env, st, jobs).Some?
    ensures |ms| == |jobs|
  {
    KeepsOf(RoundOf(env, st, jobs), Batch(env, st, jobs).value.kept)
  }

  /** What is kept and claimed by a package was kept on its account. */
  lemma KeptBy(env: Env, st: State, jobs: seq<Job>, j: nat, k: Key, p: Path) returns (a: nat)
    requires Batch(env, st, jobs).Some? && Exclusive(st) && k in st.installed && Claims(st.installed[k], p) && j <= |jobs|
    requires p in KeptAt(Batch(env, st, jobs).value.kept, BatchKeepsBack(env, st, jobs), j) && p !in Batch(env, st, jobs).value.kept
    ensures a < j && jobs[a].key == k && p in PathSet(BatchKeepsBack(env, st, jobs)[a])
  {
    var kept := Batch(env, st, jobs).value.kept;
    a := KeptWhere(kept, BatchKeepsBack(env, st, jobs), j, p);
    KeepsClaims(env, st, RoundOf(env, st, jobs), kept, a, k, p);
  }

  // ------------------------------------------------------------------ which paths are kept

  /** A package before the batch: what its record names, which of that were libraries, and the
      paths the batch put down. */
  datatype Prior = Prior(key: Key, manifest: seq<FileEntry>, libs: map<Path, string>, taken: set<Path>)

  ghost predicate Named(o: Prior, p: Path) {
    exists e :: e in o.manifest && e.path == p && !e.kind.Dir?
  }

  /** Archive `a` is one of the package and does not carry the soname. */
  ghost predicate Lacks(r: Round, k: Key, so: string, a: nat)
    requires Even(r) && a < |r.jobs|
  {
    r.jobs[a].key == k && so !in SonameSet(r.carried[a])
  }

  /** A library whose path the batch did not take, and the first archive of its package without
      its soname. */
  ghost predicate GoesFirst(r: Round, o: Prior, q: Path, a: nat)
    requires Even(r)
  {
    && q in o.libs && q !in o.taken && a < |r.jobs|
    && Lacks(r, o.key, o.libs[q], a) && forall l :: 0 <= l < a ==> !Lacks(r, o.key, o.libs[q], l)
  }

  /** The path of the library an entry may be kept for: a symlink's target beside it, or the
      entry's own. */
  function Serves(e: FileEntry): Option<Path> {
    if e.kind.Link? then Beside(e.path, e.kind.target) else Some(e.path)
  }

  /** Some entry of the path is kept before archive `t`: for a library, at the first archive that
      lacks its soname, and a symlink only if the library's path was not kept earlier. */
  ghost predicate Retained(r: Round, o: Prior, x: Path, t: nat)
    requires Even(r)
    decreases t
  {
    exists f, a: nat :: a < t && f in o.manifest && f.path == x && Serves(f).Some? && GoesFirst(r, o, Serves(f).value, a)
      && (f.kind.Link? ==> !Retained(r, o, Serves(f).value, a))
  }

  /** The package as the round finds it at each of its turns, and whose account its paths are
      kept on. */
  ghost predicate Account(r: Round, o: Prior, ms: seq<seq<FileEntry>>) {
    && Even(r) && ms == KeepsOf(r, o.taken)
    && (forall l :: 0 <= l < |r.jobs| && r.jobs[l].key == o.key ==>
          r.was[l].Some? && r.was[l].value.manifest == o.manifest && r.before[l] == o.libs)
    && (forall q :: q in o.libs ==> exists e :: e in o.manifest && e.path == q && e.kind.File?)
    && (forall l, x :: 0 <= l < |ms| && Named(o, x) && x in PathSet(ms[l]) ==> r.jobs[l].key == o.key)
  }

  lemma AtTurn(r: Round, o: Prior, ms: seq<seq<FileEntry>>, a: nat, f: FileEntry)
    requires Account(r, o, ms) && a < |r.jobs| && r.jobs[a].key == o.key
    ensures var kept := KeptAt(o.taken, ms, a);
      f in ms[a] <==> f in o.manifest && Preserves(Staying(o.libs, r.carried[a], kept), kept, f)
  {
    KeepsAt(r, o.taken, a);
    FilteredEntries(o.manifest, Staying(o.libs, r.carried[a], KeptAt(o.taken, ms, a)), KeptAt(o.taken, ms, a));
  }

  /** An entry whose library stays at a turn is kept by the end of it. */
  lemma ServedKept(r: Round, o: Prior, ms: seq<seq<FileEntry>>, a: nat, f: FileEntry, q: Path)
    requires Account(r, o, ms) && a < |r.jobs| && f in o.manifest && Serves(f) == Some(q)
    requires q in o.libs && Lacks(r, o.key, o.libs[q], a) && q !in KeptAt(o.taken, ms, a)
    ensures f.path in KeptAt(o.taken, ms, a + 1)
  {
    AtTurn(r, o, ms, a, f);
    if f.path in KeptAt(o.taken, ms, a) {
      KeptStays(o.taken, ms, a, a + 1, f.path);
    } else {
      assert f in ms[a] && f.path in PathSet(ms[a]);
    }
  }

  /** At its first turn without the soname, a library is kept at the latest. */
  lemma LackedKept(r: Round, o: Prior, ms: seq<seq<FileEntry>>, a: nat, q: Path)
    requires Account(r, o, ms) && a < |r.jobs| && q in o.libs && Lacks(r, o.key, o.libs[q], a)
    ensures q in KeptAt(o.taken, ms, a + 1)
  {
    if q in KeptAt(o.taken, ms, a) {
      KeptStays(o.taken, ms, a, a + 1, q);
    } else {
      var e :| e in o.manifest && e.path == q && e.kind.File?;
      ServedKept(r, o, ms, a, e, q);
    }
  }

  /** So what is kept at a turn is kept for a library at its first. */
  lemma KeptFirst(r: Round, o: Prior, ms: seq<seq<FileEntry>>, a: nat, f: FileEntry)
    requires Account(r, o, ms) && a < |r.jobs| && r.jobs[a].key == o.key && f in ms[a]
    ensures f in o.manifest && Serves(f).Some? && GoesFirst(r, o, Serves(f).value, a) && Serves(f).value !in KeptAt(o.taken, ms, a)
  {
    AtTurn(r, o, ms, a, f);
    var q := Serves(f).value;
    if q in o.taken {
      KeptStays(o.taken, ms, 0, a, q);
    }
    forall l | 0 <= l < a ensures !Lacks(r, o.key, o.libs[q], l) {
      if Lacks(r, o.key, o.libs[q], l) {
        LackedKept(r, o, ms, l, q);
        KeptStays(o.taken, ms, l + 1, a, q);
      }
    }
  }

  lemma {:induction false} KeptIsRetained(r: Round, o: Prior, ms: seq<seq<FileEntry>>, x: Path, t: nat)
    requires Account(r, o, ms) && t <= |r.jobs| && Named(o, x) && x !in o.taken && x in KeptAt(o.taken, ms, t)
    ensures Retained(r, o, x, t)
    decreases t, 0
  {
    var a := KeptWhere(o.taken, ms, t, x);
    var f :| f in ms[a] && f.path == x;
    KeptFirst(r, o, ms, a, f);
    var q := Serves(f).value;
    if f.kind.Link? {
      LibraryNamed(r, o, ms, q);
      RetainedIs(r, o, ms, q, a);
    }
  }

  lemma LibraryNamed(r: Round, o: Prior, ms: seq<seq<FileEntry>>, q: Path)
    requires Account(r, o, ms) && q in o.libs
    ensures Named(o, q)
  {
  }

  /** A claimed path the batch did not put down is kept exactly if it is retained. */
  lemma {:induction false} RetainedIs(r: Round, o: Prior, ms: seq<seq<FileEntry>>, x: Path, t: nat)
    requires Account(r, o, ms) && t <= |r.jobs| && Named(o, x) && x !in o.taken
    ensures x in KeptAt(o.taken, ms, t) <==> Retained(r, o, x, t)
    decreases t, 1
  {
    if x in KeptAt(o.taken, ms, t) {
      KeptIsRetained(r, o, ms, x, t);
    } else if Retained(r, o, x, t) {
      var f, a: nat :| a < t && f in o.manifest && f.path == x && Serves(f).Some? && GoesFirst(r, o, Serves(f).value, a)
        && (f.kind.Link? ==> !Retained(r, o, Serves(f).value, a));
      var q := Serves(f).value;
      if f.kind.Link? {
        LibraryNamed(r, o, ms, q);
        RetainedIs(r, o, ms, q, a);
        ServedKept(r, o, ms, a, f, q);
      } else {
        LackedKept(r, o, ms, a, q);
      }
      KeptStays(o.taken, ms, a + 1, t, x);
      assert false;
    }
  }

  /** There is a first archive without the soname if there is one. */
  lemma {:induction false} FirstOf(r: Round, o: Prior, q: Path, i: nat) returns (t: nat)
    requires Even(r) && q in o.libs && q !in o.taken && i < |r.jobs| && Lacks(r, o.key, o.libs[q], i)
    ensures t <= i && GoesFirst(r, o, q, t)
    decreases i
  {
    if l :| 0 <= l < i && Lacks(r, o.key, o.libs[q], l) {
      t := FirstOf(r, o, q, l);
    } else {
      t := i;
    }
  }

  // ------------------------------------------------------------------------ of a batch

  ghost function PriorOf(env: Env, st: State, jobs: seq<Job>, k: Key): Prior
    requires Batch(env, st, jobs).Some? && k in st.installed
  {
    Prior(k, st.installed[k].manifest, Libraries(env, st.disk, Some(st.installed[k])), Batch(env, st, jobs).value.kept)
  }

  lemma PriorAccount(env: Env, st: State, jobs: seq<Job>, k: Key)
    requires Batch(env, st, jobs).Some? && Exclusive(st) && k in st.installed
    ensures Account(RoundOf(env, st, jobs), PriorOf(env, st, jobs, k), BatchKeepsBack(env, st, jobs))
  {
    var r, o, ms := RoundOf(env, st, jobs), PriorOf(env, st, jobs, k), BatchKeepsBack(env, st, jobs);
    forall q | q in o.libs ensures exists e :: e in o.manifest && e.path == q && e.kind.File? {
      LibrariesClaimed(env, st.disk, st.installed[k], q);
    }
    forall l, x | 0 <= l < |ms| && Named(o, x) && x in PathSet(ms[l]) ensures r.jobs[l].key == k {
      KeepsClaims(env, st, r, o.taken, l, k, x);
    }
  }

  /** Of the paths a package claimed and the batch did not put down, exactly the retained ones
      are kept. */
  lemma KeptExactly(env: Env, st: State, jobs: seq<Job>, k: Key, x: Path)
    requires Batch(env, st, jobs).Some? && Exclusive(st) && k in st.installed && Claims(st.installed[k], x)
    requires x !in Batch(env, st, jobs).value.kept
    ensures x in Held(env, st, jobs).kept <==> Retained(RoundOf(env, st, jobs), PriorOf(env, st, jobs, k), x, |jobs|)
  {
    PriorAccount(env, st, jobs, k);
    HeldTurns(env, st, jobs);
    RetainedIs(RoundOf(env, st, jobs), PriorOf(env, st, jobs, k), BatchKeepsBack(env, st, jobs), x, |jobs|);
  }

  ghost predicate OnlyEntry(manifest: seq<FileEntry>, e: FileEntry) {
    forall f :: f in manifest && f.path == e.path ==> f == e
  }

  ghost predicate SymlinkAt(manifest: seq<FileEntry>, p: Path) {
    exists f :: f in manifest && f.path == p && f.kind.Link?
  }

  /** A library is retained at its first archive without the soname, and an entry beside it
      with it unless the library's path was retained earlier. */
  lemma RetainedAt(r: Round, o: Prior, e: FileEntry, p: Path, t: nat, n: nat)
    requires Even(r) && e in o.manifest && Serves(e) == Some(p) && GoesFirst(r, o, p, t) && t < n
    ensures !e.kind.Link? || !Retained(r, o, p, t) ==> Retained(r, o, e.path, n)
    ensures e.kind.Link? && OnlyEntry(o.manifest, e) ==>
      (Retained(r, o, e.path, n) <==> !Retained(r, o, p, t))
  {
    if e.kind.Link? && OnlyEntry(o.manifest, e) && Retained(r, o, e.path, n) {
      var f, a: nat :| a < n && f in o.manifest && f.path == e.path && Serves(f).Some? && GoesFirst(r, o, Serves(f).value, a)
        && (f.kind.Link? ==> !Retained(r, o, Serves(f).value, a));
      OneFirst(r, o, p, a, t);
    }
  }

  lemma OneFirst(r: Round, o: Prior, p: Path, a: nat, b: nat)
    requires Even(r) && GoesFirst(r, o, p, a) && GoesFirst(r, o, p, b)
    ensures a == b
  {
  }

  /** It was not retained earlier if no symlink of its path is recorded, or if the package is in
      the batch once. */
  lemma NotBefore(r: Round, o: Prior, p: Path, t: nat)
    requires Even(r) && GoesFirst(r, o, p, t)
    requires DistinctKeys(r.jobs) || !SymlinkAt(o.manifest, p)
    ensures !Retained(r, o, p, t)
  {
  }

  /** A leaf that no archive put down is there after a batch, and as it was, exactly if it is at no
      member's temporary name, and is kept or described by no replaced version. */
  lemma LeftOnDisk(env: Env, st: State, jobs: seq<Job>, p: Path)
    requires st.disk.Valid() && OwnLibraries(st) && Apply(env, st, jobs).Some?
    requires p !in Batch(env, st, jobs).value.kept && st.disk.IsLeaf(p)
    ensures var d := Apply(env, st, jobs).value.disk;
      && (d.IsLeaf(p) <==> BeyondAll(jobs, p) && !TakenBack(st, jobs, Held(env, st, jobs).kept, p))
      && (d.IsLeaf(p) ==> SameName(st.disk, d, p) && KeepsBytes(st.disk, d))
  {
    BatchKept(env, EtcEntries(st), st, jobs, {});
    if BeyondAll(jobs, p) {
      ApplyTakesItsOwn(env, st, jobs, p);
      ApplySweeps(env, st, jobs, p);
      BatchKeeps(env, EtcEntries(st), st, jobs, {}, p);
    } else {
      ClearedGone(env, st, jobs, p);
    }
  }

  /** The soname stays reachable. The library itself is kept whatever the batch is like, and a
      symlink beside it too, but for a path that was retained for another library before. A kept
      path stays on disk as it was, if no member's temporary name is in the way; one that is not
      goes if it still is what the record says. The package's preserved record lists a kept path
      exactly when no later archive of the package makes that record grow. */
  lemma SonameContinuity(env: Env, st: State, jobs: seq<Job>, i: nat, p: Path, e: FileEntry) returns (a: nat)
    requires st.disk.Valid() && OwnLibraries(st) && Exclusive(st) && Apply(env, st, jobs).Some?
    requires i < |jobs| && Reaches(env, st, jobs, i, p, e) && st.disk.IsLeaf(e.path)
    ensures var (r, o, kept) := (RoundOf(env, st, jobs), PriorOf(env, st, jobs, jobs[i].key), Held(env, st, jobs).kept);
      && (e.path in kept <==> Retained(r, o, e.path, |jobs|))
      && (e.kind.File? || DistinctKeys(jobs) || !SymlinkAt(o.manifest, p) ==> e.path in kept)
      && (forall t :: GoesFirst(r, o, p, t) && !Retained(r, o, p, t) ==> e.path in kept)
      && (e.kind.Link? && OnlyEntry(o.manifest, e) ==> forall t :: GoesFirst(r, o, p, t) ==> (e.path in kept <==> !Retained(r, o, p, t)))
    ensures var d := Apply(env, st, jobs).value.disk;
      && (d.IsLeaf(e.path) <==> BeyondAll(jobs, e.path) && !TakenBack(st, jobs, Held(env, st, jobs).kept, e.path))
      && (d.IsLeaf(e.path) ==> SameName(st.disk, d, e.path) && KeepsBytes(st.disk, d))
    ensures var (kept, now) := (Held(env, st, jobs).kept, PreservedOf(Apply(env, st, jobs).value, jobs[i].key));
      && (e.path in kept ==> a < |jobs| && jobs[a].key == jobs[i].key)
      && (e.path in kept ==>
            (e.path in now <==> Undisturbed(StartOf(env, st, jobs), jobs, BatchKeepsBack(env, st, jobs), a, |jobs|)))
      && (e.path !in kept ==> (e.path in now <==> e.path in PreservedOf(st, jobs[i].key)))
      && (DistinctKeys(jobs) ==> e.path in now)
  {
    var k := jobs[i].key;
    LeftOnDisk(env, st, jobs, e.path);
    KeptExactly(env, st, jobs, k, e.path);
    LeftRetained(env, st, jobs, i, p, e);
    a := 0;
    if e.path in Held(env, st, jobs).kept {
      a := KeptRecord(env, st, jobs, k, e.path);
    } else {
      UnkeptRecord(env, st, jobs, k, e.path);
    }
  }

  lemma LeftRetained(env: Env, st: State, jobs: seq<Job>, i: nat, p: Path, e: FileEntry)
    requires i < |jobs| && Batch(env, st, jobs).Some? && Reaches(env, st, jobs, i, p, e)
    ensures var (r, o) := (RoundOf(env, st, jobs), PriorOf(env, st, jobs, jobs[i].key));
      var kept := Retained(r, o, e.path, |jobs|);
      && (e.kind.File? || DistinctKeys(jobs) || !SymlinkAt(o.manifest, p) ==> kept)
      && (forall t :: GoesFirst(r, o, p, t) && !Retained(r, o, p, t) ==> kept)
      && (e.kind.Link? && OnlyEntry(o.manifest, e) ==> forall t :: GoesFirst(r, o, p, t) ==> (kept <==> !Retained(r, o, p, t)))
  {
    var r, o := RoundOf(env, st, jobs), PriorOf(env, st, jobs, jobs[i].key);
    assert Lacks(r, o.key, o.libs[p], i);
    var t := FirstOf(r, o, p, i);
    RetainedAt(r, o, e, p, t, |jobs|);
    if DistinctKeys(jobs) || !SymlinkAt(o.manifest, p) {
      NotBefore(r, o, p, t);
    }
    forall u | GoesFirst(r, o, p, u) ensures u == t {
      OneFirst(r, o, p, u, t);
    }
  }

  lemma {:induction false} UnkeptStays(s: Stay, jobs: seq<Job>, ms: seq<seq<FileEntry>>, j: nat, k: Key, p: Path)
    requires j <= |ms| == |jobs| && Fresh(s.kept, ms, |ms|) && p !in KeptAt(s.kept, ms, j)
    ensures p in PreservedOf(RecordsAt(s, jobs, ms, j), k) <==> p in PreservedOf(s.st, k)
    decreases j
  {
    if j > 0 {
      var l: nat := j - 1;
      NextKept(s.kept, ms, l, j);
      UnkeptStays(s, jobs, ms, l, k, p);
      FreshAt(s.kept, ms, |ms|, l);
      NextRecords(s, jobs, ms, l, j);
      UnkeptTurn(RecordsAt(s, jobs, ms, l), jobs[l].key, ms[l], KeptAt(s.kept, ms, l), k, p);
    }
  }

  lemma NextKept(kept: set<Path>, ms: seq<seq<FileEntry>>, l: nat, j: nat)
    requires l < |ms| && j == l + 1
    ensures KeptAt(kept, ms, j) == KeptAt(kept, ms, l) + PathSet(ms[l])
  {
  }

  lemma UnkeptTurn(st: State, key: Key, m: seq<FileEntry>, kept: set<Path>, k: Key, p: Path)
    requires NoneKept(kept, m) && p !in kept && p !in PathSet(m)
    ensures p in PreservedOf(PreserveOne(st, key, m, kept), k) <==> p in PreservedOf(st, k)
  {
    if key == k {
      RecordRewritten(st, k, m, kept);
    } else {
      OtherRecord(st, key, m, kept, k);
    }
  }

  /** A path that is not kept is in a record if it was. */
  lemma UnkeptRecord(env: Env, st: State, jobs: seq<Job>, k: Key, p: Path)
    requires OwnLibraries(st) && Apply(env, st, jobs).Some? && p !in Held(env, st, jobs).kept
    ensures p in PreservedOf(Apply(env, st, jobs).value, k) <==> p in PreservedOf(st, k)
  {
    var s, ms := StartOf(env, st, jobs), BatchKeepsBack(env, st, jobs);
    HeldTurns(env, st, jobs);
    KeepsFresh(RoundOf(env, st, jobs), s.kept, |ms|);
    UnkeptStays(s, jobs, ms, |ms|, k, p);
    RecordAfter(env, st, jobs);
    ApplyJobsRecords(env, EtcEntries(st), st, jobs, {});
  }

  /** What is kept is recorded at one turn of its package, and then for as long as the record is
      left undisturbed. */
  lemma KeptRecord(env: Env, st: State, jobs: seq<Job>, k: Key, p: Path) returns (a: nat)
    requires OwnLibraries(st) && Exclusive(st) && Apply(env, st, jobs).Some? && k in st.installed && Claims(st.installed[k], p)
    requires p in Held(env, st, jobs).kept && p !in Batch(env, st, jobs).value.kept
    ensures a < |jobs| && jobs[a].key == k
    ensures p in PreservedOf(Apply(env, st, jobs).value, k) <==>
      Undisturbed(StartOf(env, st, jobs), jobs, BatchKeepsBack(env, st, jobs), a, |jobs|)
    ensures DistinctKeys(jobs) ==> p in PreservedOf(Apply(env, st, jobs).value, k)
  {
    HeldTurns(env, st, jobs);
    a := KeptBy(env, st, jobs, |jobs|, k, p);
    KeptRecorded(env, st, jobs, a, p);
    RecordAfter(env, st, jobs);
    if DistinctKeys(jobs) {
      AloneUndisturbed(StartOf(env, st, jobs), jobs, BatchKeepsBack(env, st, jobs), a);
    }
  }

  lemma AloneUndisturbed(s: Stay, jobs: seq<Job>, ms: seq<seq<FileEntry>>, a: nat)
    requires a < |ms| == |jobs| && DistinctKeys(jobs)
    ensures Undisturbed(s, jobs, ms, a, |jobs|)
  {
  }

  /** What turn `a` keeps is kept to the end, and in its package's record then. */
  lemma KeptRecorded(env: Env, st: State, jobs: seq<Job>, a: nat, p: Path)
    requires Batch(env, st, jobs).Some? && a < |jobs| && p in PathSet(BatchKeepsBack(env, st, jobs)[a])
    ensures p in Held(env, st, jobs).kept
    ensures p in PreservedOf(Held(env, st, jobs).st, jobs[a].key) <==>
      Undisturbed(StartOf(env, st, jobs), jobs, BatchKeepsBack(env, st, jobs), a, |jobs|)
  {
    HeldTurns(env, st, jobs);
    TurnRecorded(RoundOf(env, st, jobs), StartOf(env, st, jobs), BatchKeepsBack(env, st, jobs), a, p);
  }

  lemma TurnRecorded(r: Round, s: Stay, ms: seq<seq<FileEntry>>, a: nat, p: Path)
    requires Even(r) && a < |r.jobs| && ms == KeepsOf(r, s.kept) && p in PathSet(ms[a])
    ensures p in KeptAt(s.kept, ms, |ms|)
    ensures p in PreservedOf(RecordsAt(s, r.jobs, ms, |ms|), r.jobs[a].key) <==> Undisturbed(s, r.jobs, ms, a, |ms|)
  {
    KeepsFresh(r, s.kept, |ms|);
    TurnLasts(s, r.jobs, ms, a, p);
  }

  lemma TurnLasts(s: Stay, jobs: seq<Job>, ms: seq<seq<FileEntry>>, a: nat, p: Path)
    requires a < |ms| == |jobs| && Fresh(s.kept, ms, |ms|) && p in PathSet(ms[a])
    ensures p in KeptAt(s.kept, ms, |ms|)
    ensures p in PreservedOf(RecordsAt(s, jobs, ms, |ms|), jobs[a].key) <==> Undisturbed(s, jobs, ms, a, |ms|)
  {
    RecordedThen(s, jobs, ms, a, p);
    RecordStays(s, jobs, ms, a, |ms|, p);
  }

  lemma HeldTurns(env: Env, st: State, jobs: seq<Job>)
    requires Batch(env, st, jobs).Some?
    ensures var (s, ms) := (StartOf(env, st, jobs), BatchKeepsBack(env, st, jobs));
      Held(env, st, jobs) == Stay(RecordsAt(s, jobs, ms, |jobs|), KeptAt(s.kept, ms, |jobs|))
  {
    RoundTurns(RoundOf(env, st, jobs), StartOf(env, st, jobs));
  }

  lemma RecordAfter(env: Env, st: State, jobs: seq<Job>)
    requires OwnLibraries(st) && Apply(env, st, jobs).Some?
    ensures Apply(env, st, jobs).value.preserved == Held(env, st, jobs).st.preserved
  {
    HeldRecords(env, st, jobs);
    ApplyJobsRecords(env, EtcEntries(st), st, jobs, {});
    DispossessRecords(Held(env, st, jobs).st, jobs);
  }
}
