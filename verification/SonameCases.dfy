/** Two archives of one package in one batch, each carrying on one of the package's two sonames
    under another file name: what the preserved record forgets, and which link is not kept. */
module SonameCases {
  import opened Paths
  import opened Disk
  import opened Records
  import opened Extraction
  import opened ExtractionLaws
  import opened Lifecycle
  import opened Ownership
  import opened Sweep
  import opened Losses
  import opened Sonames

  // ----------------------------------------------------------------------- the root

  const BYTES_A: Content := [65]
  const BYTES_B: Content := [66]

  /** Two contents are libraries, and nothing else is. */
  function Reader(): Env {
    Env(c => if c == BYTES_A then Some(Library("a", false)) else if c == BYTES_B then Some(Library("b", false)) else None, {})
  }

  const LIB_A: FileEntry := Entry(0x1ED, Kind.File(BYTES_A), ["a"])
  const LIB_B: FileEntry := Entry(0x1ED, Kind.File(BYTES_B), ["b"])
  const OVER_B: FileEntry := Entry(0x1FF, Kind.Link("a"), ["b"])
  const LINK_B: FileEntry := Entry(0x1FF, Kind.Link("b"), ["l"])

  const K: Key := Key("x86_64-gnu", "two")

  /** Two libraries and a link to the second. */
  const ROOT: Disk := Disk(map[["a"] := Node.File(0), ["b"] := Node.File(1), ["l"] := Node.Link("b")], map[0 := BYTES_A, 1 := BYTES_B], 2)

  function Before(manifest: seq<FileEntry>): State {
    State(ROOT, map[K := Installed(Version("1", 1), [], manifest, "", [], [])], map[], map[])
  }

  // ----------------------------------------------------------------------- the batch

  function Ships(path: string, bytes: Content): Member {
    Member(What.File([bytes]), 0x1ED, [path])
  }

  function Archive(m: Member): Job {
    Job(K, Version("2", 1), [], [m], "", [], [])
  }

  function Jobs(): seq<Job> {
    [Archive(Ships("d", BYTES_B))] + ([Archive(Ships("c", BYTES_A))] + [])
  }

  lemma Letters()
    ensures "a" != "b" && "a" != "c" && "a" != "d" && "a" != "l" && "b" != "c" && "b" != "d" && "b" != "l" && "c" != "d" && "c" != "l" && "d" != "l"
    ensures |"a"| == |"b"| == |"c"| == |"d"| == |"l"| == 1
  {
    assert "a"[0] == 'a' && "b"[0] == 'b' && "c"[0] == 'c' && "d"[0] == 'd' && "l"[0] == 'l';
  }

  /** A temporary name is longer than one letter. */
  lemma TempLong(path: string, p: Path)
    requires |path| == 1 && |p| == 1 && |p[0]| == 1
    ensures Temp([path]) != p
  {
    assert [path][0] == path && |"." + path + ".kiry"| == 7;
    assert Temp([path]) == [] + ["." + path + ".kiry"];
  }

  /** One library put down at the top of a root. */
  lemma OnePut(d: Disk, m: Member)
    requires d.Valid() && |m.path| == 1 && m.path !in d.nodes && Temp(m.path) !in d.nodes && m.what.File?
    ensures Extract(d, [m], {}, {}) == Some(Extracted(Put(d, m, {}), [Recorded(m, {})]))
    ensures var e := Put(d, m, {});
      e.Valid() && e.nodes == d.nodes[m.path := Node.File(d.next)] && e.data == d.data[d.next := Flat(m.what.chunks)] && e.next == d.next + 1
  {
    assert Parent(m.path) == [] && Missing(d, Parent(m.path)) == [];
    StepsPut(d, m, {});
    RunValid(d, Steps(d, m, {}));
    PutData(d, m, {});
    var e := Put(d, m, {});
    forall q ensures PutName(d, m, {}, e, q) {
      PutAt(d, m, {}, q);
    }
    assert e.nodes == d.nodes[m.path := Node.File(d.next)];
    assert [m][1..] == [] && Entries(d, m, {}) + [] == [Recorded(m, {})];
  }

  function After(st: State, j: Job, m: Member): State
    requires m.path != []
  {
    Recording(Reader(), st, j, Extracted(Put(st.disk, m, {}), [Recorded(m, {})]))
  }

  /** What it reads as. */
  lemma OneScan(d: Disk, m: Member, bytes: Content, so: string)
    requires m.what == What.File([bytes]) && d.Bytes(m.path) == Some(bytes)
    requires Reader().elf(bytes) == Some(Library(so, false)) && m.path != []
    ensures Scan(Reader(), d, [Recorded(m, {})]) == [Provide(so, false, m.path)]
  {
    FlatOne(bytes);
    var one: seq<FileEntry> := [Recorded(m, {})];
    assert one[1..] == [];
  }

  lemma FlatOne(bytes: Content)
    ensures Flat([bytes]) == bytes
  {
    assert [bytes][1..] == [] && bytes + [] == bytes;
  }

  lemma OneWritable(m: Member, so: string)
    requires |m.path| == 1 && |m.path[0]| == 1 && m.path[0][0] != '\n' && m.what.File? && !(exists c <- so :: White(c))
    ensures Writable([Recorded(m, {})], [Provide(so, false, m.path)]) && PathSet([Recorded(m, {})]) == {m.path}
  {
    var one := [Recorded(m, {})];
    assert one[0].path == m.path;
  }

  lemma ApplyStep(env: Env, st: State, j: Job, rest: seq<Job>, kept: set<Path>, x: Extracted, more: seq<Provide<Path>>, end: Pass)
    requires Extract(st.disk, j.members, {}, env.keep) == Some(x) && more == Scan(env, x.disk, x.manifest) && Writable(x.manifest, more)
    requires ApplyJobs(env, {}, Recording(env, st, j, x), rest, kept + PathSet(x.manifest)) == Some(end)
    ensures ApplyJobs(env, {}, st, [j] + rest, kept) == Some(end.(carried := [more] + end.carried))
  {
    var jobs := [j] + rest;
    assert jobs[0] == j && jobs[1..] == rest;
    assert Skip({}, st.disk, j.members) == {};
  }

  /** A library with a name the database can hold. */
  ghost predicate Readable(path: string, bytes: Content, so: string) {
    |path| == 1 && path[0] != '\n' && Reader().elf(bytes) == Some(Library(so, false)) && !(exists c <- so :: White(c))
  }

  lemma BothReadable()
    ensures Readable("d", BYTES_B, "b") && Readable("c", BYTES_A, "a")
  {
    Letters();
  }

  /** And recorded. */
  lemma OneJob(st: State, path: string, bytes: Content, so: string, rest: seq<Job>, kept: set<Path>, end: Pass)
    requires st.disk.Valid() && [path] !in st.disk.nodes && Temp([path]) !in st.disk.nodes && Readable(path, bytes, so)
    requires var m := Ships(path, bytes); ApplyJobs(Reader(), {}, After(st, Archive(m), m), rest, kept + {[path]}) == Some(end)
    ensures ApplyJobs(Reader(), {}, st, [Archive(Ships(path, bytes))] + rest, kept)
      == Some(end.(carried := [[Provide(so, false, [path])]] + end.carried))
  {
    var m := Ships(path, bytes);
    var j, d, one := Archive(m), Put(st.disk, m, {}), [Recorded(m, {})];
    OnePut(st.disk, m);
    assert d.Bytes(m.path) == Some(bytes) by { FlatOne(bytes); }
    OneScan(d, m, bytes, so);
    OneWritable(m, so);
    ApplyStep(Reader(), st, j, rest, kept, Extracted(d, one), [Provide(so, false, [path])], end);
  }

  // ------------------------------------------------------------------------- the round

  lemma RootValid()
    ensures ROOT.Valid()
  {
  }

  lemma Clear(path: string)
    requires |path| == 1
    ensures Temp([path]) !in ROOT.nodes
  {
    TempLong(path, ["a"]);
    TempLong(path, ["b"]);
    TempLong(path, ["l"]);
  }

  /** The root with the first library on it. */
  lemma FirstOn(manifest: seq<FileEntry>) returns (mid: State)
    ensures mid == After(Before(manifest), Archive(Ships("d", BYTES_B)), Ships("d", BYTES_B))
    ensures mid.disk.Valid() && mid.disk.nodes == ROOT.nodes[["d"] := Node.File(2)] && mid.preserved == map[]
  {
    Letters();
    RootValid();
    Clear("d");
    OnePut(ROOT, Ships("d", BYTES_B));
    mid := After(Before(manifest), Archive(Ships("d", BYTES_B)), Ships("d", BYTES_B));
  }

  /** And then the second. */
  lemma SecondOn(mid: State, kept: set<Path>)
    requires mid.disk.Valid() && mid.disk.nodes == ROOT.nodes[["d"] := Node.File(2)] && mid.preserved == map[]
    ensures var p := ApplyJobs(Reader(), {}, mid, [Archive(Ships("c", BYTES_A))] + [], kept);
      && p.Some? && p.value.kept == kept + {["c"]} && p.value.st.preserved == map[]
      && p.value.carried == [[Provide("a", false, ["c"])]]
  {
    var second := Ships("c", BYTES_A);
    Letters();
    BothReadable();
    TempLong("c", ["d"]);
    Clear("c");
    OnePut(mid.disk, second);
    var last := Pass(After(mid, Archive(second), second), kept + {["c"]}, []);
    OneJob(mid, "c", BYTES_A, "a", [], kept, last);
  }

  function Carried(): seq<seq<Provide<Path>>> {
    [[Provide("b", false, ["d"])]] + [[Provide("a", false, ["c"])]]
  }

  /** Both archives go on: what the batch puts down, and what each of them carries. */
  lemma BatchIs(manifest: seq<FileEntry>)
    requires forall e :: e in manifest ==> |e.path| == 1
    ensures var b := Batch(Reader(), Before(manifest), Jobs());
      b.Some? && b.value.kept == {["d"], ["c"]} && b.value.st.preserved == map[] && b.value.carried == Carried()
  {
    BothReadable();
    RootValid();
    Clear("d");
    var mid := FirstOn(manifest);
    var rest, kept: set<Path> := [Archive(Ships("c", BYTES_A))] + [], {} + {["d"]};
    SecondOn(mid, kept);
    OneJob(Before(manifest), "d", BYTES_B, "b", rest, {}, ApplyJobs(Reader(), {}, mid, rest, kept).value);
    NoEtc(manifest);
  }

  lemma NoEtc(manifest: seq<FileEntry>)
    requires forall e :: e in manifest ==> |e.path| == 1
    ensures EtcEntries(Before(manifest)) == {}
  {
  }

  /** No check is in the way. */
  lemma BatchAccepted(manifest: seq<FileEntry>)
    ensures Accepts(Before(manifest), Jobs())
  {
    var st, jobs := Before(manifest), Jobs();
    Letters();
    assert JobKeys(jobs) == {K} by {
      assert jobs[0].key == K;
    }
    var first, second: seq<Member> := [Ships("d", BYTES_B)], [Ships("c", BYTES_A)];
    assert first[1..] == [] && second[1..] == [] && jobs[1..] == [Archive(Ships("c", BYTES_A))] && jobs[1..][1..] == [];
    assert LeafPaths(first) == [["d"]] && LeafPaths(second) == [["c"]];
    assert AllLeafPaths(jobs[1..][1..]) == [];
    assert AllLeafPaths(jobs[1..]) == [["c"]] + [];
    assert AllLeafPaths(jobs) == [["d"]] + ([["c"]] + []);
  }

  // --------------------------------------------------------------------- the libraries

  function Manifest(links: seq<FileEntry>): seq<FileEntry> {
    [LIB_A] + ([LIB_B] + links)
  }

  lemma ManifestIs(links: seq<FileEntry>)
    ensures forall e :: e in Manifest(links) <==> e == LIB_A || e == LIB_B || e in links
  {
  }

  lemma ScanOne(e: FileEntry, so: string, rest: seq<FileEntry>)
    requires e.kind.File? && ROOT.Bytes(e.path) == Some(e.kind.sum) && Reader().elf(e.kind.sum) == Some(Library(so, false))
    ensures Scan(Reader(), ROOT, [e] + rest) == [Provide(so, false, e.path)] + Scan(Reader(), ROOT, rest)
  {
    assert ([e] + rest)[1..] == rest;
  }

  lemma {:induction false} ScanLinks(links: seq<FileEntry>)
    requires forall e :: e in links ==> e.kind.Link?
    ensures Scan(Reader(), ROOT, links) == []
  {
    if links != [] {
      ScanLinks(links[1..]);
    }
  }

  lemma LibrariesAre(links: seq<FileEntry>, rec: Installed)
    requires rec.manifest == Manifest(links) && forall e :: e in links ==> e.kind.Link?
    ensures Libraries(Reader(), ROOT, Some(rec)) == map[["a"] := "a", ["b"] := "b"]
  {
    Letters();
    ScanLinks(links);
    ScanOne(LIB_B, "b", links);
    ScanOne(LIB_A, "a", [LIB_B] + links);
    var one, two := [Provide("a", false, ["a"])], [Provide("a", false, ["a"]), Provide("b", false, ["b"])];
    assert Scan(Reader(), ROOT, rec.manifest) == two;
    assert two[..1] == one && one[..0] == [];
    assert Lifecycle.Sonames(one) == map[["a"] := "a"];
  }

  // ------------------------------------------------------------- batches of this shape

  /** The first of two archives of a package lacks the soname of `a`, and the second is the first
      to lack the one of `b`. */
  ghost predicate TwoTurns(env: Env, st: State, jobs: seq<Job>, k: Key, a: Path, b: Path) {
    && st.disk.Valid() && OwnLibraries(st) && Exclusive(st) && Apply(env, st, jobs).Some? && k in st.installed
    && |jobs| == 2 && jobs[0].key == k && jobs[1].key == k
    && GoesFirst(RoundOf(env, st, jobs), PriorOf(env, st, jobs, k), a, 0)
    && GoesFirst(RoundOf(env, st, jobs), PriorOf(env, st, jobs, k), b, 1)
  }

  /** Beside a library whose path is recorded as a symlink to the other one, a link. */
  ghost predicate Linked(manifest: seq<FileEntry>, a: Path, eb: FileEntry, over: FileEntry, link: FileEntry) {
    && eb in manifest && eb.kind.File?
    && over in manifest && over.kind.Link? && over.path == eb.path && Serves(over) == Some(a)
    && link in manifest && link.kind.Link? && Serves(link) == Some(eb.path) && OnlyEntry(manifest, link)
  }

  /** The symlink at the library's path is kept at the first turn, so the link is not at the
      second. */
  lemma LinkUnretained(r: Round, o: Prior, a: Path, eb: FileEntry, over: FileEntry, link: FileEntry)
    requires Even(r) && GoesFirst(r, o, a, 0) && GoesFirst(r, o, eb.path, 1) && Linked(o.manifest, a, eb, over, link)
    ensures Retained(r, o, eb.path, 2) && !Retained(r, o, link.path, 2)
  {
    assert !Retained(r, o, a, 0);
    assert Retained(r, o, eb.path, 1);
    RetainedAt(r, o, eb, eb.path, 1, 2);
    RetainedAt(r, o, link, eb.path, 1, 2);
  }

  /** So the library stays, and the link to it goes. */
  lemma LinkGoes(env: Env, st: State, jobs: seq<Job>, k: Key, a: Path, eb: FileEntry, over: FileEntry, link: FileEntry)
    requires TwoTurns(env, st, jobs, k, a, eb.path) && Linked(st.installed[k].manifest, a, eb, over, link)
    requires link.path !in Batch(env, st, jobs).value.kept && BeyondAll(jobs, eb.path) && st.disk.IsLeaf(eb.path)
    requires link.path in st.disk.nodes && st.disk.nodes[link.path] == Node.Link(link.kind.target)
    ensures var d := Apply(env, st, jobs).value.disk; d.IsLeaf(eb.path) && !d.IsLeaf(link.path)
  {
    var kept := Held(env, st, jobs).kept;
    LinkUnretained(RoundOf(env, st, jobs), PriorOf(env, st, jobs, k), a, eb, over, link);
    KeptExactly(env, st, jobs, k, eb.path);
    KeptExactly(env, st, jobs, k, link.path);
    assert TakenBack(st, jobs, kept, link.path) by {
      assert jobs[0] in jobs && Matches(st.disk, link, Sums(st.installed[k].manifest));
    }
    LeftOnDisk(env, st, jobs, eb.path);
    LeftOnDisk(env, st, jobs, link.path);
  }

  /** Each library is kept at the turn its soname goes. */
  lemma LibrariesKept(r: Round, o: Prior, ms: seq<seq<FileEntry>>, ea: FileEntry, eb: FileEntry)
    requires Account(r, o, ms) && GoesFirst(r, o, ea.path, 0) && GoesFirst(r, o, eb.path, 1)
    requires ea in o.manifest && eb in o.manifest && ea.kind.File? && eb.kind.File? && !SymlinkAt(o.manifest, eb.path)
    ensures ea.path in PathSet(ms[0]) && eb.path in PathSet(ms[1]) && eb.path !in KeptAt(o.taken, ms, 1)
  {
    NotBefore(r, o, eb.path, 1);
    RetainedIs(r, o, ms, eb.path, 1);
    AtTurn(r, o, ms, 0, ea);
    AtTurn(r, o, ms, 1, eb);
    assert ea in ms[0] && eb in ms[1];
  }

  /** The record does not hold the second library before the second turn, which makes it grow. */
  lemma SecondGrows(s: Stay, jobs: seq<Job>, ms: seq<seq<FileEntry>>, l: nat, k: Key, b: Path)
    requires l < |ms| == |jobs| && jobs[l].key == k && Fresh(s.kept, ms, |ms|) && b !in PreservedOf(s.st, k)
    requires b in PathSet(ms[l]) && b !in KeptAt(s.kept, ms, l)
    ensures GrowsAt(s, jobs, ms, l)
  {
    FreshFront(s.kept, ms, |ms|, l);
    UnkeptStays(s, jobs, ms, l, k, b);
  }

  lemma FreshFront(kept: set<Path>, ms: seq<seq<FileEntry>>, n: nat, l: nat)
    requires l <= n <= |ms| && Fresh(kept, ms, n)
    ensures Fresh(kept, ms, l)
    decreases n
  {
    if l < n {
      FreshFront(kept, ms, n - 1, l);
    }
  }

  /** So the second turn drops the first library from the record. */
  lemma RecordDrops(env: Env, st: State, jobs: seq<Job>, k: Key, ea: FileEntry, eb: FileEntry)
    requires TwoTurns(env, st, jobs, k, ea.path, eb.path) && eb.path !in PreservedOf(Batch(env, st, jobs).value.st, k)
    requires var m := st.installed[k].manifest;
      ea in m && eb in m && ea.kind.File? && eb.kind.File? && !SymlinkAt(m, eb.path)
    ensures ea.path in Held(env, st, jobs).kept && eb.path in Held(env, st, jobs).kept
    ensures var now := PreservedOf(Apply(env, st, jobs).value, k); ea.path !in now && eb.path in now
  {
    var s, ms, r := StartOf(env, st, jobs), BatchKeepsBack(env, st, jobs), RoundOf(env, st, jobs);
    PriorAccount(env, st, jobs, k);
    LibrariesKept(r, PriorOf(env, st, jobs, k), ms, ea, eb);
    KeepsFresh(r, s.kept, |ms|);
    SecondGrows(s, jobs, ms, 1, k, eb.path);
    KeptRecorded(env, st, jobs, 0, ea.path);
    KeptRecorded(env, st, jobs, 1, eb.path);
    RecordAfter(env, st, jobs);
  }

  // -------------------------------------------------------------------- this batch is one

  /** The first archive lacks the first soname, the second the second. */
  lemma TurnsGo(r: Round, o: Prior)
    requires Even(r) && r.jobs == Jobs() && r.carried == Carried() && o.key == K
    requires o.libs == map[["a"] := "a", ["b"] := "b"] && o.taken == {["d"], ["c"]}
    ensures GoesFirst(r, o, ["a"], 0) && GoesFirst(r, o, ["b"], 1)
  {
    Letters();
    assert r.jobs[0].key == K && r.jobs[1].key == K;
    assert r.carried[0] == [Provide("b", false, ["d"])] && r.carried[1] == [Provide("a", false, ["c"])];
    assert SonameSet(r.carried[0]) == {"b"} && SonameSet(r.carried[1]) == {"a"};
  }

  /** No member's temporary name is one letter. */
  lemma BeyondLetters(p: Path)
    requires |p| == 1 && |p[0]| == 1
    ensures BeyondAll(Jobs(), p)
  {
    Letters();
    TempLong("d", p);
    TempLong("c", p);
  }

  lemma BeforeFits(links: seq<FileEntry>)
    ensures var st := Before(Manifest(links)); Exclusive(st) && OwnLibraries(st) && st.disk.Valid() && K in st.installed
  {
    RootValid();
  }

  lemma Turns(links: seq<FileEntry>)
    requires forall e :: e in links ==> e.kind.Link? && |e.path| == 1
    ensures TwoTurns(Reader(), Before(Manifest(links)), Jobs(), K, ["a"], ["b"])
    ensures var b := Batch(Reader(), Before(Manifest(links)), Jobs()).value; b.st.preserved == map[] && b.kept == {["d"], ["c"]}
  {
    ManifestIs(links);
    BatchIs(Manifest(links));
    BeforeFits(links);
    TurnsOf(Before(Manifest(links)), links);
  }

  lemma TurnsOf(st: State, links: seq<FileEntry>)
    requires st == Before(Manifest(links)) && forall e :: e in links ==> e.kind.Link?
    requires var b := Batch(Reader(), st, Jobs()); b.Some? && b.value.kept == {["d"], ["c"]} && b.value.carried == Carried()
    ensures GoesFirst(RoundOf(Reader(), st, Jobs()), PriorOf(Reader(), st, Jobs(), K), ["a"], 0)
    ensures GoesFirst(RoundOf(Reader(), st, Jobs()), PriorOf(Reader(), st, Jobs(), K), ["b"], 1)
    ensures |Jobs()| == 2 && Jobs()[0].key == K && Jobs()[1].key == K
  {
    LibrariesAre(links, st.installed[K]);
    TurnsGo(RoundOf(Reader(), st, Jobs()), PriorOf(Reader(), st, Jobs(), K));
  }

  /** The three leaves, out of the way of the batch. */
  lemma RootLeaves()
    ensures ROOT.IsLeaf(["a"]) && ROOT.IsLeaf(["b"]) && ["l"] in ROOT.nodes && ROOT.nodes[["l"]] == Node.Link("b")
  {
    Letters();
  }

  function Links(): seq<FileEntry> {
    [OVER_B] + ([LINK_B] + [])
  }

  lemma LinksShort()
    ensures forall e :: e in Links() ==> e.kind.Link? && |e.path| == 1
  {
  }

  lemma LinksAre()
    ensures Linked(Manifest(Links()), ["a"], LIB_B, OVER_B, LINK_B)
  {
    Letters();
    ManifestIs(Links());
    assert forall e :: e in Manifest(Links()) <==> e == LIB_A || e == LIB_B || e == OVER_B || e == LINK_B;
    assert Parent(["b"]) == [] && [] + ["a"] == ["a"] && '/' !in "a";
    assert Parent(["l"]) == [] && [] + ["b"] == ["b"] && '/' !in "b";
  }

  /** Why a library's path should not be recorded as a symlink as well. The first archive lacks
      only the soname of `a`, so the symlink at `b` is kept for it and `b` is spoken for; the
      second lacks the soname of `b`, which stays, while the link to it goes. */
  lemma LinkNotKept()
    ensures var (st, jobs) := (Before(Manifest(Links())), Jobs());
      && Accepts(st, jobs) && Apply(Reader(), st, jobs).Some? && st.disk.IsLeaf(["l"])
      && var d := Apply(Reader(), st, jobs).value.disk; d.IsLeaf(["b"]) && !d.IsLeaf(["l"])
  {
    LinkOut(Before(Manifest(Links())));
    BatchAccepted(Manifest(Links()));
  }

  /** The link is one of the leaves, and its record says so. */
  lemma LinkLeaf(st: State)
    requires st == Before(Manifest(Links()))
    ensures Linked(st.installed[K].manifest, ["a"], LIB_B, OVER_B, LINK_B)
    ensures ["l"] in st.disk.nodes && st.disk.nodes[["l"]] == Node.Link("b") && st.disk.IsLeaf(["b"])
  {
    LinksAre();
    RootLeaves();
  }

  lemma LinkBatch(st: State)
    requires st == Before(Manifest(Links()))
    ensures TwoTurns(Reader(), st, Jobs(), K, ["a"], ["b"])
    ensures ["l"] !in Batch(Reader(), st, Jobs()).value.kept
  {
    LinksShort();
    Turns(Links());
    Untaken(Batch(Reader(), st, Jobs()).value.kept);
  }

  lemma Untaken(kept: set<Path>)
    requires kept == {["d"], ["c"]}
    ensures ["a"] !in kept && ["b"] !in kept && ["l"] !in kept
  {
    Letters();
  }

  lemma LinkOut(st: State)
    requires st == Before(Manifest(Links()))
    ensures Apply(Reader(), st, Jobs()).Some? && st.disk.IsLeaf(["l"])
    ensures var d := Apply(Reader(), st, Jobs()).value.disk; d.IsLeaf(["b"]) && !d.IsLeaf(["l"])
  {
    LinkLeaf(st);
    LinkBatch(st);
    BeyondLetters(["b"]);
    LinkGoes(Reader(), st, Jobs(), K, ["a"], LIB_B, OVER_B, LINK_B);
  }

  lemma NoSymlinks()
    ensures LIB_A in Manifest([]) && LIB_B in Manifest([]) && !SymlinkAt(Manifest([]), ["b"])
  {
    ManifestIs([]);
  }

  /** Two archives of one package: both libraries stay on disk, and of the preserved record the
      second turn leaves only the second. */
  lemma SecondDrops()
    ensures var (st, jobs) := (Before(Manifest([])), Jobs());
      && Accepts(st, jobs) && Apply(Reader(), st, jobs).Some?
      && var r := Apply(Reader(), st, jobs).value;
         r.disk.IsLeaf(["a"]) && r.disk.IsLeaf(["b"]) && ["a"] !in PreservedOf(r, K) && ["b"] in PreservedOf(r, K)
  {
    BatchAccepted(Manifest([]));
    Turns([]);
    NoSymlinks();
    RecordDrops(Reader(), Before(Manifest([])), Jobs(), K, LIB_A, LIB_B);
    LibrariesStay();
  }

  lemma LibrariesStay()
    requires TwoTurns(Reader(), Before(Manifest([])), Jobs(), K, ["a"], ["b"])
    requires var kept := Held(Reader(), Before(Manifest([])), Jobs()).kept; ["a"] in kept && ["b"] in kept
    ensures var d := Apply(Reader(), Before(Manifest([])), Jobs()).value.disk; d.IsLeaf(["a"]) && d.IsLeaf(["b"])
  {
    Turns([]);
    RootLeaves();
    BeyondLetters(["a"]);
    BeyondLetters(["b"]);
    Untaken(Batch(Reader(), Before(Manifest([])), Jobs()).value.kept);
    LeftOnDisk(Reader(), Before(Manifest([])), Jobs(), ["a"]);
    LeftOnDisk(Reader(), Before(Manifest([])), Jobs(), ["b"]);
  }
}
