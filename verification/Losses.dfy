/** What an install or a removal may unlink, and what it never does. */
module Losses {
  import opened Paths
  import opened Disk
  import opened Records
  import opened Extraction
  import opened Lifecycle
  import opened Ownership
  import opened Sweep
  import opened Lasting

  /** An entry of a replaced record, left out by the whole batch, that may take the node. */
  ghost predicate PrunedBy(d: Disk, was: seq<Option<Installed>>, kept: set<Path>, p: Path) {
    exists i, e :: 0 <= i < |was| && was[i].Some? && e in was[i].value.manifest && e.path == p && p !in kept
      && Takes(d, e, Sums(was[i].value.manifest))
  }

  lemma {:induction false} StaleEntries(manifest: seq<FileEntry>, kept: set<Path>)
    ensures forall e :: e in Stale(manifest, kept) <==> e in manifest && e.path !in kept
  {
    if manifest != [] {
      StaleEntries(manifest[1..], kept);
    }
  }

  /** Nothing new is named, and what still is named is what it was. */
  ghost predicate Within(d: Disk, r: Disk) {
    && r.data == d.data && r.next == d.next
    && (forall p :: p in r.nodes ==> p in d.nodes && r.nodes[p] == d.nodes[p])
  }

  lemma PrunedLater(d: Disk, mid: Disk, was: seq<Option<Installed>>, kept: set<Path>, p: Path)
    requires was != [] && Within(d, mid) && PrunedBy(mid, was[1..], kept, p)
    ensures PrunedBy(d, was, kept, p)
  {
    var i, e :| 0 <= i < |was[1..]| && was[1..][i].Some? && e in was[1..][i].value.manifest && e.path == p
      && p !in kept && Takes(mid, e, Sums(was[1..][i].value.manifest));
    assert was[i + 1] == was[1..][i];
    assert Takes(d, e, Sums(was[i + 1].value.manifest));
  }

  lemma PrunedFirst(d: Disk, was: seq<Option<Installed>>, kept: set<Path>)
    requires d.Valid() && was != [] && was[0].Some?
    ensures var (manifest, r) := (was[0].value.manifest, Unlink(Swept(d, NOTHING), Stale(was[0].value.manifest, kept), Sums(was[0].value.manifest)).disk);
      && r.Valid() && Within(d, r)
      && (forall p :: p in d.nodes && p !in r.nodes ==> PrunedBy(d, was, kept, p))
  {
    var manifest := was[0].value.manifest;
    UnlinkSweeps(Swept(d, NOTHING), Stale(manifest, kept), Sums(manifest));
    StaleEntries(manifest, kept);
  }

  lemma {:induction false} PruneSweeps(d: Disk, was: seq<Option<Installed>>, kept: set<Path>)
    requires d.Valid()
    ensures var r := Prune(d, was, kept);
      && r.Valid() && Within(d, r)
      && (forall p :: p in d.nodes && p !in r.nodes ==> PrunedBy(d, was, kept, p))
    decreases |was|
  {
    if was != [] {
      var mid := d;
      if was[0].Some? {
        PrunedFirst(d, was, kept);
        var manifest := was[0].value.manifest;
        mid := Unlink(Swept(d, NOTHING), Stale(manifest, kept), Sums(manifest)).disk;
      }
      PruneSweeps(mid, was[1..], kept);
      forall p | p in mid.nodes && p !in Prune(d, was, kept).nodes ensures PrunedBy(d, was, kept, p) {
        PrunedLater(d, mid, was, kept, p);
      }
    }
  }

  /** What the batch put down is kept, and so is all it recorded. */
  lemma {:induction false} BatchKept(env: Env, etc: set<FileEntry>, st: State, jobs: seq<Job>, kept: set<Path>)
    requires ApplyJobs(env, etc, st, jobs, kept).Some?
    ensures var r := ApplyJobs(env, etc, st, jobs, kept).value;
      && kept <= r.kept
      && (forall j, p :: j in jobs && p in Taken(j) ==> p in r.kept)
      && (forall k, e :: k in JobKeys(jobs) && k in r.st.installed && e in r.st.installed[k].manifest ==> e.path in r.kept)
    decreases |jobs|
  {
    if jobs != [] {
      var j, rest := jobs[0], jobs[1..];
      var x := Extract(st.disk, j.members, Skip(etc, st.disk, j.members), env.keep).value;
      var next := Recording(env, st, j, x);
      BatchKept(env, etc, next, rest, kept + PathSet(x.manifest));
      var r := ApplyJobs(env, etc, st, jobs, kept).value;
      forall p | p in Taken(j) ensures p in r.kept {
        ExtractClaims(st.disk, j.members, Skip(etc, st.disk, j.members), env.keep, p);
        LeafPathsMember(j.members, p);
      }
      assert JobKeys(jobs) == {j.key} + JobKeys(rest);
      if j.key !in JobKeys(rest) {
        BatchOthers(env, etc, next, rest, kept + PathSet(x.manifest), j.key);
      }
    }
  }

  lemma {:induction false} BatchOthers(env: Env, etc: set<FileEntry>, st: State, jobs: seq<Job>, kept: set<Path>, k: Key)
    requires ApplyJobs(env, etc, st, jobs, kept).Some? && k in st.installed && k !in JobKeys(jobs)
    ensures var r := ApplyJobs(env, etc, st, jobs, kept).value.st;
      k in r.installed && r.installed[k] == st.installed[k]
    decreases |jobs|
  {
    if jobs != [] {
      var j, rest := jobs[0], jobs[1..];
      var x := Extract(st.disk, j.members, Skip(etc, st.disk, j.members), env.keep).value;
      assert JobKeys(jobs) == {j.key} + JobKeys(rest);
      BatchOthers(env, etc, Recording(env, st, j, x), rest, kept + PathSet(x.manifest), k);
    }
  }

  lemma {:induction false} PreserveJobsKept(st: State, jobs: seq<Job>, was: seq<Option<Installed>>, before: seq<map<Path, string>>,
                                            carried: seq<seq<Provide<Path>>>, kept: set<Path>)
    requires |jobs| == |was| == |before| == |carried|
    ensures kept <= PreserveJobs(st, jobs, was, before, carried, kept).kept
    decreases |jobs|
  {
    if jobs != [] {
      var m := Preserve(was[0], before[0], carried[0], kept);
      PreserveJobsKept(PreserveOne(st, jobs[0].key, m, kept), jobs[1..], was[1..], before[1..], carried[1..], kept + PathSet(m));
    }
  }

  lemma HeldKept(env: Env, st: State, jobs: seq<Job>)
    requires Batch(env, st, jobs).Some?
    ensures Batch(env, st, jobs).value.kept <= Held(env, st, jobs).kept
  {
    var pass := Batch(env, st, jobs).value;
    PreserveJobsKept(pass.st, jobs, WasOf(st, jobs), BeforeOf(env, st.disk, WasOf(st, jobs)), pass.carried, pass.kept);
  }

  /** The disk an application leaves is the batch's, less what was pruned. */
  lemma ApplySweeps(env: Env, st: State, jobs: seq<Job>, p: Path)
    requires st.disk.Valid() && OwnLibraries(st) && Apply(env, st, jobs).Some? && BeyondAll(jobs, p)
    ensures var (r, batch) := (Apply(env, st, jobs).value.disk, Batch(env, st, jobs).value.st.disk);
      && r.Valid() && KeepsBytes(st.disk, r) && r.data == batch.data
      && (p in r.nodes ==> p in batch.nodes && r.nodes[p] == batch.nodes[p])
      && (p in batch.nodes && p !in r.nodes ==> PrunedBy(batch, WasOf(st, jobs), Held(env, st, jobs).kept, p))
  {
    BatchKeeps(env, EtcEntries(st), st, jobs, {}, p);
    HeldRecords(env, st, jobs);
    ApplyJobsRecords(env, EtcEntries(st), st, jobs, {});
    DispossessRecords(Held(env, st, jobs).st, jobs);
    PruneSweeps(Batch(env, st, jobs).value.st.disk, WasOf(st, jobs), Held(env, st, jobs).kept);
  }

  /** No leaf that is claimed afterwards is pruned. */
  lemma ClaimedUnpruned(env: Env, st: State, jobs: seq<Job>, k: Key, p: Path)
    requires st.disk.Valid() && OwnLibraries(st) && Exclusive(st) && Apply(env, st, jobs).Some?
    requires var r := Apply(env, st, jobs).value; k in r.installed && Claims(r.installed[k], p)
    requires Batch(env, st, jobs).value.st.disk.IsLeaf(p)
    ensures !PrunedBy(Batch(env, st, jobs).value.st.disk, WasOf(st, jobs), Held(env, st, jobs).kept, p)
  {
    var pass, was, kept := Batch(env, st, jobs).value, WasOf(st, jobs), Held(env, st, jobs).kept;
    ApplyRecords(env, st, jobs);
    BatchKept(env, EtcEntries(st), st, jobs, {});
    HeldKept(env, st, jobs);
    if PrunedBy(pass.st.disk, was, kept, p) {
      var i, e :| 0 <= i < |was| && was[i].Some? && e in was[i].value.manifest && e.path == p && p !in kept
        && Takes(pass.st.disk, e, Sums(was[i].value.manifest));
      assert Claims(st.installed[jobs[i].key], p);
      assert jobs[i].key in JobKeys(jobs);
      if k !in JobKeys(jobs) {
        BatchOthers(env, EtcEntries(st), st, jobs, {}, k);
      }
      assert false;
    }
  }

  lemma ClaimedLeaf(env: Env, st: State, jobs: seq<Job>, k: Key, p: Path)
    requires st.disk.Valid() && OwnLibraries(st) && Exclusive(st) && Apply(env, st, jobs).Some?
    requires var r := Apply(env, st, jobs).value; k in r.installed && Claims(r.installed[k], p)
    ensures Apply(env, st, jobs).value.disk.IsLeaf(p) <==> Batch(env, st, jobs).value.st.disk.IsLeaf(p)
  {
    if Batch(env, st, jobs).value.st.disk.IsLeaf(p) {
      ClaimedUnpruned(env, st, jobs, k, p);
    }
    ApplyDisk(env, st, jobs);
    BatchValid(env, EtcEntries(st), st, jobs, {});
    PruneSweeps(Batch(env, st, jobs).value.st.disk, WasOf(st, jobs), Held(env, st, jobs).kept);
  }

  /** A path some record owns after an install is on disk exactly if it was there and no archive
      touched it, or the last archive to touch it leaves it there: its last member of that path
      must not be overrun by a later member's temporary file. So it always is if no temporary
      name is in the way. */
  lemma ApplyLosesNothing(env: Env, st: State, jobs: seq<Job>, k: Key, p: Path)
    requires st.disk.Valid() && OwnLibraries(st) && Exclusive(st) && Apply(env, st, jobs).Some?
    requires var r := Apply(env, st, jobs).value; k in r.installed && Claims(r.installed[k], p)
    ensures Apply(env, st, jobs).value.disk.IsLeaf(p) <==> Lasts(env, EtcEntries(st), st, jobs, {}, p)
    ensures BeyondAll(jobs, p) && (st.disk.IsLeaf(p) || ShipsAny(jobs, p)) ==> Apply(env, st, jobs).value.disk.IsLeaf(p)
  {
    ClaimedLeaf(env, st, jobs, k, p);
    BatchLeaf(env, EtcEntries(st), st, jobs, {}, p);
    if BeyondAll(jobs, p) {
      BatchKeeps(env, EtcEntries(st), st, jobs, {}, p);
    }
  }

  /** A path somebody else owns survives an install exactly when no member's temporary file
      has its name. */
  lemma OwnedSurvives(env: Env, st: State, jobs: seq<Job>, k: Key, p: Path)
    requires st.disk.Valid() && OwnLibraries(st) && Exclusive(st) && Apply(env, st, jobs).Some?
    requires var r := Apply(env, st, jobs).value; k in r.installed && Claims(r.installed[k], p)
    requires st.disk.IsLeaf(p) && !ShipsAny(jobs, p)
    ensures Apply(env, st, jobs).value.disk.IsLeaf(p) <==> BeyondAll(jobs, p)
  {
    if BeyondAll(jobs, p) {
      ApplyLosesNothing(env, st, jobs, k, p);
    } else {
      ClearedGone(env, st, jobs, p);
    }
  }

  /** A leaf at a member's temporary name does not survive, unless an archive ships the path. */
  lemma ClearedGone(env: Env, st: State, jobs: seq<Job>, p: Path)
    requires st.disk.Valid() && OwnLibraries(st) && Apply(env, st, jobs).Some? && !BeyondAll(jobs, p) && !ShipsAny(jobs, p)
    ensures !Apply(env, st, jobs).value.disk.IsLeaf(p)
  {
    BatchClears(env, EtcEntries(st), st, jobs, {}, p);
    BatchValid(env, EtcEntries(st), st, jobs, {});
    ApplyDisk(env, st, jobs);
    PruneSweeps(Batch(env, st, jobs).value.st.disk, WasOf(st, jobs), Held(env, st, jobs).kept);
  }

  lemma BatchValid(env: Env, etc: set<FileEntry>, st: State, jobs: seq<Job>, kept: set<Path>)
    requires st.disk.Valid() && ApplyJobs(env, etc, st, jobs, kept).Some?
    ensures ApplyJobs(env, etc, st, jobs, kept).value.st.disk.Valid()
  {
    var p: Path := [];
    assert BeyondAll(jobs, p);
    BatchKeeps(env, etc, st, jobs, kept, p);
  }

  /** A replaced version recorded the leaf, which still is what that version recorded, and
      neither an archive of the batch nor a library left behind keeps the path. */
  ghost predicate TakenBack(st: State, jobs: seq<Job>, kept: set<Path>, p: Path) {
    && p !in kept
    && exists j, e :: (
      && j in jobs && j.key in st.installed && e in st.installed[j.key].manifest && e.path == p
      && Matches(st.disk, e, Sums(st.installed[j.key].manifest)))
  }

  /** An entry that matches a leaf takes it, and no other entry's turn makes it match less. */
  lemma OneTakes(s: Swept, last: FileEntry, sums: map<Path, Content>, e: FileEntry)
    requires s.disk.Valid() && s.disk.IsLeaf(e.path) && Matches(s.disk, e, sums)
    ensures var r := UnlinkOne(s, last, sums).disk;
      r.Valid() && (e.path in r.nodes ==> last != e && r.IsLeaf(e.path) && Matches(r, e, sums))
  {
    UnlinkOneSweeps(s, last, sums);
  }

  lemma InFront<T>(all: seq<T>, front: seq<T>, last: T, e: T)
    requires all == front + [last] && e in all && e != last
    ensures e in front
  {
  }

  lemma LastFirst(s: Swept, front: seq<FileEntry>, last: FileEntry, sums: map<Path, Content>)
    ensures Unlink(s, front + [last], sums) == Unlink(UnlinkOne(s, last, sums), front, sums)
  {
    var entries := front + [last];
    assert entries[..|entries| - 1] == front && entries[|entries| - 1] == last;
  }

  lemma {:induction false} UnlinkTakes(s: Swept, entries: seq<FileEntry>, sums: map<Path, Content>, e: FileEntry)
    requires s.disk.Valid() && s.disk.IsLeaf(e.path) && e in entries && Matches(s.disk, e, sums)
    ensures e.path !in Unlink(s, entries, sums).disk.nodes
    decreases |entries|
  {
    var front, last := entries[..|entries| - 1], entries[|entries| - 1];
    var mid := UnlinkOne(s, last, sums);
    OneTakes(s, last, sums, e);
    LastFirst(s, front, last, sums);
    assert entries == front + [last];
    if e.path in mid.disk.nodes {
      InFront(entries, front, last, e);
      UnlinkTakes(mid, front, sums, e);
    } else {
      UnlinkSweeps(mid, front, sums);
    }
  }

  function Leaves(d: Disk): set<Path> {
    set p | p in d.nodes && !d.nodes[p].Dir?
  }

  /** An entry of the list matches the leaf. */
  ghost predicate MatchedBy(d: Disk, entries: seq<FileEntry>, sums: map<Path, Content>, p: Path) {
    exists e :: e in entries && e.path == p && Matches(d, e, sums)
  }

  lemma OneCounts(s: Swept, e: FileEntry, sums: map<Path, Content>)
    ensures var r := UnlinkOne(s, e, sums); |Leaves(r.disk)| + r.tally.gone == |Leaves(s.disk)| + s.tally.gone
  {
    var r := UnlinkOne(s, e, sums);
    if r.tally.gone == s.tally.gone {
      assert Leaves(r.disk) == Leaves(s.disk);
    } else {
      assert Leaves(s.disk) == Leaves(r.disk) + {e.path} && e.path !in Leaves(r.disk);
    }
  }

  lemma {:induction false} UnlinkCounts(s: Swept, entries: seq<FileEntry>, sums: map<Path, Content>)
    ensures var r := Unlink(s, entries, sums); |Leaves(r.disk)| + r.tally.gone == |Leaves(s.disk)| + s.tally.gone
    decreases |entries|
  {
    if entries != [] {
      var last := entries[|entries| - 1];
      OneCounts(s, last, sums);
      UnlinkCounts(UnlinkOne(s, last, sums), entries[..|entries| - 1], sums);
    }
  }

  /** Whatever the order of the entries, the leaves that go are exactly those some entry matches
      on the disk as it was, and the count of what is gone is their number. */
  lemma UnlinkExact(s: Swept, entries: seq<FileEntry>, sums: map<Path, Content>)
    requires s.disk.Valid()
    ensures var r := Unlink(s, entries, sums);
      && (forall p :: s.disk.IsLeaf(p) ==> (p !in r.disk.nodes <==> MatchedBy(s.disk, entries, sums, p)))
      && |Leaves(s.disk) - Leaves(r.disk)| == r.tally.gone - s.tally.gone
  {
    var r := Unlink(s, entries, sums);
    UnlinkSweeps(s, entries, sums);
    forall p | s.disk.IsLeaf(p) ensures p !in r.disk.nodes <==> MatchedBy(s.disk, entries, sums, p) {
      if MatchedBy(s.disk, entries, sums, p) {
        var e :| e in entries && e.path == p && Matches(s.disk, e, sums);
        UnlinkTakes(s, entries, sums, e);
      }
    }
    UnlinkCounts(s, entries, sums);
    assert Leaves(s.disk) == Leaves(r.disk) + (Leaves(s.disk) - Leaves(r.disk));
  }

  /** A stale entry of the first record takes the leaf it matches. */
  lemma FirstTakes(d: Disk, rec: Installed, kept: set<Path>, e: FileEntry)
    requires d.Valid() && d.IsLeaf(e.path) && e in rec.manifest && e.path !in kept && Takes(d, e, Sums(rec.manifest))
    ensures e.path !in Unlink(Swept(d, NOTHING), Stale(rec.manifest, kept), Sums(rec.manifest)).disk.nodes
  {
    StaleEntries(rec.manifest, kept);
    UnlinkTakes(Swept(d, NOTHING), Stale(rec.manifest, kept), Sums(rec.manifest), e);
  }

  /** A leaf the first record left is left to the others. */
  lemma PrunedRest(d: Disk, mid: Disk, was: seq<Option<Installed>>, kept: set<Path>, p: Path, i: nat, e: FileEntry)
    requires Within(d, mid) && p in mid.nodes && 0 < i < |was| && was[i].Some? && e in was[i].value.manifest && e.path == p
    requires p !in kept && Takes(d, e, Sums(was[i].value.manifest))
    ensures PrunedBy(mid, was[1..], kept, p)
  {
    assert was[1..][i - 1] == was[i] && Takes(mid, e, Sums(was[i].value.manifest));
  }

  function PruneFirst(d: Disk, rec: Option<Installed>, kept: set<Path>): Disk {
    if rec.None? then d else Unlink(Swept(d, NOTHING), Stale(rec.value.manifest, kept), Sums(rec.value.manifest)).disk
  }

  lemma PruneStep(d: Disk, was: seq<Option<Installed>>, kept: set<Path>, mid: Disk)
    requires d.Valid() && was != [] && mid == PruneFirst(d, was[0], kept)
    ensures Prune(d, was, kept) == Prune(mid, was[1..], kept) && mid.Valid() && Within(d, mid)
  {
    if was[0].Some? {
      PrunedFirst(d, was, kept);
    }
  }

  /** A leaf that a stale entry matches does not outlast the pruning. */
  lemma {:induction false} PruneTakes(d: Disk, was: seq<Option<Installed>>, kept: set<Path>, p: Path)
    requires d.Valid() && d.IsLeaf(p) && PrunedBy(d, was, kept, p)
    ensures p !in Prune(d, was, kept).nodes
    decreases |was|
  {
    var i, e :| 0 <= i < |was| && was[i].Some? && e in was[i].value.manifest && e.path == p && p !in kept
      && Takes(d, e, Sums(was[i].value.manifest));
    var mid := PruneFirst(d, was[0], kept);
    PruneStep(d, was, kept, mid);
    if i == 0 {
      FirstTakes(d, was[0].value, kept, e);
    }
    if p in mid.nodes {
      PrunedRest(d, mid, was, kept, p, i, e);
      PruneTakes(mid, was[1..], kept, p);
    } else {
      PruneSweeps(mid, was[1..], kept);
    }
  }

  /** On a leaf the batch left alone, the pruning's question is the one about the old disk. */
  lemma PrunedMatches(st: State, batch: Disk, jobs: seq<Job>, kept: set<Path>, p: Path)
    requires st.disk.Valid() && st.disk.IsLeaf(p) && KeepsBytes(st.disk, batch) && SameName(st.disk, batch, p)
    ensures PrunedBy(batch, WasOf(st, jobs), kept, p) <==> TakenBack(st, jobs, kept, p)
  {
    assert batch.Bytes(p) == st.disk.Bytes(p);
    if PrunedBy(batch, WasOf(st, jobs), kept, p) {
      PrunedThenTaken(st, batch, jobs, kept, p);
    }
    if TakenBack(st, jobs, kept, p) {
      TakenThenPruned(st, batch, jobs, kept, p);
    }
  }

  /** The same leaf, through the same bytes. */
  ghost predicate SameLeaf(d: Disk, r: Disk, p: Path) {
    d.IsLeaf(p) && p in r.nodes && r.nodes[p] == d.nodes[p] && r.Bytes(p) == d.Bytes(p)
  }

  lemma PrunedThenTaken(st: State, batch: Disk, jobs: seq<Job>, kept: set<Path>, p: Path)
    requires SameLeaf(st.disk, batch, p) && PrunedBy(batch, WasOf(st, jobs), kept, p)
    ensures TakenBack(st, jobs, kept, p)
  {
    var was := WasOf(st, jobs);
    var i, e :| 0 <= i < |was| && was[i].Some? && e in was[i].value.manifest && e.path == p && p !in kept
      && Takes(batch, e, Sums(was[i].value.manifest));
    assert jobs[i] in jobs && Matches(st.disk, e, Sums(was[i].value.manifest));
  }

  lemma TakenThenPruned(st: State, batch: Disk, jobs: seq<Job>, kept: set<Path>, p: Path)
    requires SameLeaf(st.disk, batch, p) && TakenBack(st, jobs, kept, p)
    ensures PrunedBy(batch, WasOf(st, jobs), kept, p)
  {
    var was := WasOf(st, jobs);
    var j, e :| j in jobs && j.key in st.installed && e in st.installed[j.key].manifest && e.path == p
      && Matches(st.disk, e, Sums(st.installed[j.key].manifest));
    var i :| 0 <= i < |jobs| && jobs[i] == j;
    assert was[i] == Some(st.installed[j.key]) && Takes(batch, e, Sums(was[i].value.manifest));
  }

  /** What the batch ships stays. */
  lemma ShippedStays(env: Env, st: State, jobs: seq<Job>, p: Path)
    requires st.disk.Valid() && OwnLibraries(st) && Apply(env, st, jobs).Some? && BeyondAll(jobs, p) && ShipsAny(jobs, p)
    ensures p in Held(env, st, jobs).kept && Apply(env, st, jobs).value.disk.IsLeaf(p)
  {
    ApplySweeps(env, st, jobs, p);
    BatchKeeps(env, EtcEntries(st), st, jobs, {}, p);
    BatchKept(env, EtcEntries(st), st, jobs, {});
    HeldKept(env, st, jobs);
  }

  /** An install unlinks exactly the leaves of the versions it replaces that it keeps for
      nobody and that still are what those versions recorded. */
  lemma ApplyTakesItsOwn(env: Env, st: State, jobs: seq<Job>, p: Path)
    requires st.disk.Valid() && OwnLibraries(st) && Apply(env, st, jobs).Some?
    requires BeyondAll(jobs, p) && st.disk.IsLeaf(p)
    ensures p !in Apply(env, st, jobs).value.disk.nodes <==> TakenBack(st, jobs, Held(env, st, jobs).kept, p)
    ensures ShipsAny(jobs, p) ==> !TakenBack(st, jobs, Held(env, st, jobs).kept, p)
  {
    var kept := Held(env, st, jobs).kept;
    if ShipsAny(jobs, p) {
      ShippedStays(env, st, jobs, p);
    } else {
      BatchKeeps(env, EtcEntries(st), st, jobs, {}, p);
      PrunedMatches(st, Batch(env, st, jobs).value.st.disk, jobs, kept, p);
      ApplyPrunes(env, st, jobs, p);
    }
  }

  /** On a leaf the batch leaves, the pruning decides. */
  lemma ApplyPrunes(env: Env, st: State, jobs: seq<Job>, p: Path)
    requires st.disk.Valid() && OwnLibraries(st) && Apply(env, st, jobs).Some? && BeyondAll(jobs, p)
    requires Batch(env, st, jobs).value.st.disk.IsLeaf(p)
    ensures p !in Apply(env, st, jobs).value.disk.nodes
      <==> PrunedBy(Batch(env, st, jobs).value.st.disk, WasOf(st, jobs), Held(env, st, jobs).kept, p)
  {
    ApplySweeps(env, st, jobs, p);
    ApplyDisk(env, st, jobs);
    BatchValid(env, EtcEntries(st), st, jobs, {});
    if PrunedBy(Batch(env, st, jobs).value.st.disk, WasOf(st, jobs), Held(env, st, jobs).kept, p) {
      PruneTakes(Batch(env, st, jobs).value.st.disk, WasOf(st, jobs), Held(env, st, jobs).kept, p);
    }
  }

  /** An application's disk is the batch's, pruned. */
  lemma ApplyDisk(env: Env, st: State, jobs: seq<Job>)
    requires OwnLibraries(st) && Apply(env, st, jobs).Some?
    ensures Apply(env, st, jobs).value.disk == Prune(Batch(env, st, jobs).value.st.disk, WasOf(st, jobs), Held(env, st, jobs).kept)
  {
    HeldRecords(env, st, jobs);
    ApplyJobsRecords(env, EtcEntries(st), st, jobs, {});
    DispossessRecords(Held(env, st, jobs).st, jobs);
  }

  /** A configuration file whose bytes are not the recorded ones keeps those bytes whoever
      ships the path, unless another entry of the path still describes it. A path no archive
      ships keeps them exactly if it also is no member's temporary name; and one that is such a
      name is gone after the first archive with that member, even if that archive ships it. */
  lemma EditedConfigKept(env: Env, st: State, jobs: seq<Job>, k: Key, e: FileEntry)
    requires st.disk.Valid() && OwnLibraries(st) && Apply(env, st, jobs).Some?
    requires k in st.installed && e in st.installed[k].manifest && |e.path| > 1 && e.path[0] == "etc"
    requires e.kind.File? && st.disk.Bytes(e.path).Some? && st.disk.Bytes(e.path).value != e.kind.sum
    ensures var (p, r) := (e.path, Apply(env, st, jobs).value.disk);
      && (BeyondAll(jobs, p) ==>
            (r.Bytes(p) == st.disk.Bytes(p) <==> !TakenBack(st, jobs, Held(env, st, jobs).kept, p)))
      && (!ShipsAny(jobs, p) ==>
            (r.Bytes(p) == st.disk.Bytes(p) <==> BeyondAll(jobs, p) && !TakenBack(st, jobs, Held(env, st, jobs).kept, p)))
      && (Throughout(env, EtcEntries(st), st, jobs, {}, p) <==> BeyondAll(jobs, p))
  {
    var p, r := e.path, Apply(env, st, jobs).value;
    assert e in EtcEntries(st);
    EditedThroughout(env, EtcEntries(st), st, jobs, {}, e);
    if BeyondAll(jobs, p) {
      ApplyTakesItsOwn(env, st, jobs, p);
      ApplySweeps(env, st, jobs, p);
      BatchKeeps(env, EtcEntries(st), st, jobs, {}, p);
    } else if !ShipsAny(jobs, p) {
      ClearedGone(env, st, jobs, p);
    }
  }

  /** Any other path holds after a batch what the last archive to ship it carries, whatever was
      there before. */
  lemma ShippedHolds(env: Env, st: State, jobs: seq<Job>, p: Path, n: nat, a: nat)
    requires st.disk.Valid() && OwnLibraries(st) && Apply(env, st, jobs).Some?
    requires !(|p| > 1 && p[0] == "etc") && LastAt(jobs, p, n, a)
    ensures HoldsMember(Apply(env, st, jobs).value.disk, jobs[n].members[a], p)
  {
    BatchHolds(env, EtcEntries(st), st, jobs, {}, p, n, a);
    BatchThenApply(env, st, jobs, p, n, a);
  }

  /** And so does a configuration file that is as every record of it says, if only one archive
      ships it. */
  lemma UneditedReplaced(env: Env, st: State, jobs: seq<Job>, p: Path, n: nat, a: nat)
    requires st.disk.Valid() && OwnLibraries(st) && Apply(env, st, jobs).Some?
    requires forall k, e :: k in st.installed && e in st.installed[k].manifest && e.path == p && e.kind.File? ==>
               st.disk.Bytes(p) == None || st.disk.Bytes(p) == Some(e.kind.sum)
    requires FirstAt(jobs, p, n) && LastAt(jobs, p, n, a)
    ensures HoldsMember(Apply(env, st, jobs).value.disk, jobs[n].members[a], p)
  {
    BatchHolds(env, EtcEntries(st), st, jobs, {}, p, n, a);
    BatchThenApply(env, st, jobs, p, n, a);
  }

  /** What is shipped is not pruned. */
  lemma BatchThenApply(env: Env, st: State, jobs: seq<Job>, p: Path, n: nat, a: nat)
    requires st.disk.Valid() && OwnLibraries(st) && Apply(env, st, jobs).Some? && LastAt(jobs, p, n, a)
    requires var batch := Batch(env, st, jobs).value.st.disk; batch.IsLeaf(p) && HoldsMember(batch, jobs[n].members[a], p)
    ensures HoldsMember(Apply(env, st, jobs).value.disk, jobs[n].members[a], p)
  {
    var etc, batch := EtcEntries(st), Batch(env, st, jobs).value.st.disk;
    BatchKept(env, etc, st, jobs, {});
    HeldKept(env, st, jobs);
    assert jobs[n] in jobs && p in Taken(jobs[n]);
    ApplyDisk(env, st, jobs);
    BatchValid(env, etc, st, jobs, {});
    PruneSweeps(batch, WasOf(st, jobs), Held(env, st, jobs).kept);
    HoldsStill(batch, Apply(env, st, jobs).value.disk, jobs[n].members[a], p);
  }

  /** With one owner a path, only the file's own package could take it. */
  lemma EditedStays(env: Env, st: State, jobs: seq<Job>, k: Key, e: FileEntry)
    requires Exclusive(st) && k in st.installed && e in st.installed[k].manifest && e.kind.File? && Apply(env, st, jobs).Some?
    requires forall f :: f in st.installed[k].manifest && f.path == e.path ==>
               !Matches(st.disk, f, Sums(st.installed[k].manifest))
    ensures !TakenBack(st, jobs, Held(env, st, jobs).kept, e.path)
  {
    var p := e.path;
    if TakenBack(st, jobs, Held(env, st, jobs).kept, p) {
      var j, f :| j in jobs && j.key in st.installed && f in st.installed[j.key].manifest && f.path == p
        && Matches(st.disk, f, Sums(st.installed[j.key].manifest));
      assert Claims(st.installed[k], p) && Claims(st.installed[j.key], p);
      assert false;
    }
  }

  /** A record that names a configuration file twice, with other bytes each time: the file is
      not what the first entry says, but the second describes it, and an archive of the
      package without the path takes it. */
  lemma NamedTwiceTaken(env: Env, st: State, j: Job, e: FileEntry, f: FileEntry)
    requires st.disk.Valid() && OwnLibraries(st) && Apply(env, st, [j]).Some? && j.members == [] && j.key in st.installed
    requires st.installed[j.key].manifest == [e, f] && e.kind.File? && f.kind.File? && e.path == f.path && |e.path| > 1 && e.path[0] == "etc"
    requires st.disk.Bytes(e.path) == Some(f.kind.sum) && e.kind.sum != f.kind.sum && env.elf(f.kind.sum).None?
    ensures Edited(st.disk, e) && Apply(env, st, [j]).value.disk.Bytes(e.path) != st.disk.Bytes(e.path)
  {
    var p, jobs, rec := e.path, [j], st.installed[j.key];
    assert f == rec.manifest[1] && Matches(st.disk, f, Sums(rec.manifest));
    assert j in jobs && BeyondAll(jobs, p);
    NothingHeld(env, st, j, e, f);
    EditedConfigKept(env, st, jobs, j.key, e);
  }

  lemma NothingHeld(env: Env, st: State, j: Job, e: FileEntry, f: FileEntry)
    requires Apply(env, st, [j]).Some? && j.members == [] && j.key in st.installed
    requires st.installed[j.key].manifest == [e, f] && e.kind.File? && f.kind.File? && e.path == f.path
    requires st.disk.Bytes(e.path) == Some(f.kind.sum) && env.elf(f.kind.sum).None?
    ensures Held(env, st, [j]).kept == {}
  {
    var pass, was := Batch(env, st, [j]).value, WasOf(st, [j]);
    BatchOfNone(env, EtcEntries(st), st, [j]);
    NoLibraries(env, st.disk, st.installed[j.key], e, f);
    assert was[0] == Some(st.installed[j.key]);
    HeldNone(pass.st, [j], was, BeforeOf(env, st.disk, was), pass.carried);
  }

  lemma BatchOfNone(env: Env, etc: set<FileEntry>, st: State, jobs: seq<Job>)
    requires |jobs| == 1 && jobs[0].members == [] && ApplyJobs(env, etc, st, jobs, {}).Some?
    ensures ApplyJobs(env, etc, st, jobs, {}).value.kept == {}
  {
    var skip := Skip(etc, st.disk, jobs[0].members);
    var x := Extract(st.disk, jobs[0].members, skip, env.keep).value;
    assert x.manifest == [] && jobs[1..] == [] && PathSet(x.manifest) == {};
    assert ApplyJobs(env, etc, Recording(env, st, jobs[0], x), jobs[1..], {} + PathSet(x.manifest)).value.kept == {};
  }

  lemma NoLibraries(env: Env, d: Disk, rec: Installed, e: FileEntry, f: FileEntry)
    requires rec.manifest == [e, f] && e.path == f.path && f.kind.File?
    requires d.Bytes(e.path) == Some(f.kind.sum) && env.elf(f.kind.sum).None?
    ensures Libraries(env, d, Some(rec)) == map[]
  {
    var rest := rec.manifest[1..];
    assert rest == [f] && rest[1..] == [];
    assert Scan(env, d, rest) == [];
  }

  /** Without libraries only links are kept, and these are for libraries too. */
  lemma HeldNone(st: State, jobs: seq<Job>, was: seq<Option<Installed>>, before: seq<map<Path, string>>, carried: seq<seq<Provide<Path>>>)
    requires |jobs| == |was| == |before| == |carried| == 1 && before[0] == map[]
    ensures PreserveJobs(st, jobs, was, before, carried, {}).kept == {}
  {
    var m := Preserve(was[0], before[0], carried[0], {});
    if was[0].Some? {
      NoneFiltered(was[0].value.manifest, Staying(before[0], carried[0], {}), {});
    }
    assert m == [] && PathSet(m) == {};
    assert jobs[1..] == [];
  }

  lemma {:induction false} NoneFiltered(manifest: seq<FileEntry>, stay: set<Path>, kept: set<Path>)
    requires stay == {}
    ensures Filtered(manifest, stay, kept) == []
  {
    if manifest != [] {
      NoneFiltered(manifest[1..], stay, kept);
    }
  }

  // --------------------------------------------------------------------------- removal

  /** An entry of a package that is gone, which may take the node. */
  ghost predicate RemovedBy(d: Disk, r: State, target: string, names: seq<string>, recs: map<string, Installed>, p: Path) {
    exists n, e :: n in names && n in recs && Key(target, n) !in r.installed && e in recs[n].manifest && e.path == p
      && Takes(d, e, Sums(recs[n].manifest))
  }

  lemma RemovedLater(d: Disk, mid: Disk, r: State, target: string, names: seq<string>, recs: map<string, Installed>, p: Path)
    requires names != [] && Within(d, mid) && RemovedBy(mid, r, target, names[1..], recs, p)
    ensures RemovedBy(d, r, target, names, recs, p)
  {
    var n, e :| n in names[1..] && n in recs && Key(target, n) !in r.installed && e in recs[n].manifest && e.path == p
      && Takes(mid, e, Sums(recs[n].manifest));
    assert Takes(d, e, Sums(recs[n].manifest));
  }

  lemma {:induction false} RemoveAllSweeps(st: State, target: string, names: seq<string>, recs: map<string, Installed>, p: Path)
    requires forall n <- names :: n in recs
    requires st.disk.Valid()
    ensures var r := RemoveAll(st, target, names, recs).st;
      && r.disk.Valid() && Within(st.disk, r.disk)
      && (p in st.disk.nodes && p !in r.disk.nodes ==> RemovedBy(st.disk, r, target, names, recs, p))
    decreases |names|
  {
    if names != [] {
      var rec, k := recs[names[0]], Key(target, names[0]);
      UnlinkSweeps(Swept(st.disk, NOTHING), rec.manifest, Sums(rec.manifest));
      var swept := Unlink(Swept(st.disk, NOTHING), rec.manifest, Sums(rec.manifest));
      var after := Forget(st.(disk := swept.disk), k);
      if k in st.installed {
        RemoveAllSweeps(after, target, names[1..], recs, p);
        RemoveAllRecords(after, target, names[1..], recs);
        var r := RemoveAll(after, target, names[1..], recs).st;
        if p in after.disk.nodes && p !in r.disk.nodes {
          RemovedLater(st.disk, after.disk, r, target, names, recs, p);
        }
      }
    }
  }

  /** Removal unlinks a leaf only for a package that is gone, and only if the leaf still is
      what that package recorded. */
  lemma RemoveTakesItsOwn(st: State, target: string, names: seq<string>, force: bool, p: Path)
    requires st.disk.Valid() && st.disk.IsLeaf(p) && p !in Remove(st, target, names, force).st.disk.nodes
    ensures var r := Remove(st, target, names, force).st;
      exists n, e :: n in names && Key(target, n) in st.installed && Key(target, n) !in r.installed
        && e in st.installed[Key(target, n)].manifest && e.path == p
        && Matches(st.disk, e, Sums(st.installed[Key(target, n)].manifest))
  {
    var recs := RecordsOf(st, target, names);
    RemoveAllSweeps(st, target, names, recs, p);
    var n, e :| n in names && n in recs && Key(target, n) !in Remove(st, target, names, force).st.installed
      && e in recs[n].manifest && e.path == p && Takes(st.disk, e, Sums(recs[n].manifest));
    assert Matches(st.disk, e, Sums(st.installed[Key(target, n)].manifest));
  }

  /** What a record still owns after a removal is still there. */
  lemma RemoveLosesNothing(st: State, target: string, names: seq<string>, force: bool, k: Key, p: Path)
    requires st.disk.Valid() && Exclusive(st) && st.disk.IsLeaf(p)
    requires var r := Remove(st, target, names, force).st; k in r.installed && Claims(r.installed[k], p)
    ensures SameName(st.disk, Remove(st, target, names, force).st.disk, p)
  {
    var r := Remove(st, target, names, force).st;
    if forall n <- names :: Key(target, n) in st.installed {
      RemoveAllRecords(st, target, names, RecordsOf(st, target, names));
      RemoveAllSweeps(st, target, names, RecordsOf(st, target, names), p);
    }
    if p !in r.disk.nodes {
      RemoveTakesItsOwn(st, target, names, force, p);
      var n, e :| n in names && Key(target, n) in st.installed && Key(target, n) !in r.installed
        && e in st.installed[Key(target, n)].manifest && e.path == p
        && Matches(st.disk, e, Sums(st.installed[Key(target, n)].manifest));
      assert Claims(st.installed[Key(target, n)], p);
    }
  }
}
