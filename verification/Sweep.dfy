/** What extraction and removal do to the disk, name by name. */
module Sweep {
  import opened Paths
  import opened Disk
  import opened Records
  import opened Extraction
  import opened ExtractionLaws
  import opened Lifecycle

  // ---------------------------------------------------------------------------- unlink

  /** An entry that may take the node under its path: a leaf that still matches it, or a
      directory nobody is protecting. */
  ghost predicate Takes(d: Disk, e: FileEntry, sums: map<Path, Content>) {
    if e.kind.Dir? then e.path !in PROTECTED && e.path in d.nodes && d.nodes[e.path].Dir?
    else Matches(d, e, sums)
  }

  /** `r` is `d` with some names gone, each by an entry that may take it. */
  ghost predicate SweptTo(d: Disk, r: Disk, entries: seq<FileEntry>, sums: map<Path, Content>) {
    && r.data == d.data && r.next == d.next
    && (forall p :: p in r.nodes ==> p in d.nodes && r.nodes[p] == d.nodes[p])
    && (forall p :: p in d.nodes && p !in r.nodes ==>
          exists e :: e in entries && e.path == p && Takes(d, e, sums))
  }

  lemma UnlinkOneSweeps(s: Swept, e: FileEntry, sums: map<Path, Content>)
    requires s.disk.Valid()
    ensures UnlinkOne(s, e, sums).disk.Valid() && SweptTo(s.disk, UnlinkOne(s, e, sums).disk, [e], sums)
  {
    var d, r := s.disk, UnlinkOne(s, e, sums).disk;
    if r != d {
      assert r.nodes == d.nodes - {e.path};
      forall p | p in r.nodes ensures r.IsDir(Parent(p)) {
        assert d.IsDir(Parent(p));
      }
      assert e in [e] && Takes(d, e, sums);
    }
  }

  lemma SweptThen(d: Disk, mid: Disk, r: Disk, front: seq<FileEntry>, last: FileEntry, sums: map<Path, Content>)
    requires SweptTo(d, mid, [last], sums) && SweptTo(mid, r, front, sums)
    ensures SweptTo(d, r, front + [last], sums)
  {
    var entries := front + [last];
    assert forall e :: e in entries <==> e in front || e == last;
    forall p | p in d.nodes && p !in r.nodes
      ensures exists e :: e in entries && e.path == p && Takes(d, e, sums)
    {
      if p in mid.nodes {
        var e :| e in front && e.path == p && Takes(mid, e, sums);
        assert Takes(d, e, sums);
      }
    }
  }

  lemma {:induction false} UnlinkSweeps(s: Swept, entries: seq<FileEntry>, sums: map<Path, Content>)
    requires s.disk.Valid()
    ensures Unlink(s, entries, sums).disk.Valid() && SweptTo(s.disk, Unlink(s, entries, sums).disk, entries, sums)
    decreases |entries|
  {
    if entries != [] {
      var front, last := entries[..|entries| - 1], entries[|entries| - 1];
      var mid := UnlinkOne(s, last, sums);
      UnlinkOneSweeps(s, last, sums);
      UnlinkSweeps(mid, front, sums);
      SweptThen(s.disk, mid.disk, Unlink(s, entries, sums).disk, front, last, sums);
      assert entries == front + [last];
    }
  }

  // ----------------------------------------------------------------------- extraction

  /** A name an extraction leaves alone, unless it stands for a member's temporary file. */
  ghost predicate Beyond(ms: seq<Member>, p: Path) {
    forall m :: m in ms && m.path != [] ==> p != Temp(m.path)
  }

  ghost predicate Writes(ms: seq<Member>, skip: set<Path>, p: Path) {
    p !in skip && exists m :: m in ms && !m.what.Dir? && m.path == p
  }

  /** Bytes are never written over: an inode keeps what it held. */
  ghost predicate KeepsBytes(d: Disk, r: Disk) {
    d.next <= r.next && forall i :: i in d.data ==> i in r.data && r.data[i] == d.data[i]
  }

  ghost predicate SameName(d: Disk, r: Disk, p: Path) {
    (p in d.nodes <==> p in r.nodes) && (p in d.nodes ==> r.nodes[p] == d.nodes[p])
  }

  lemma PutKeeps(d: Disk, m: Member, skip: set<Path>, p: Path)
    requires d.Valid() && Fits(d, m, skip) && p != Temp(m.path)
    ensures var r := Put(d, m, skip);
      && KeepsBytes(d, r)
      && (d.IsLeaf(p) ==> p in r.nodes)
      && (d.IsLeaf(p) && (m.what.Dir? || p != m.path || p in skip) ==> SameName(d, r, p))
      && (p == m.path && !m.what.Dir? && p !in skip ==> r.IsLeaf(p))
      && (d.IsLeaf(p) && !m.what.Dir? ==> r.IsLeaf(p))
  {
    PutAt(d, m, skip, p);
    PutData(d, m, skip);
  }

  /** What was there stays there, and what the archive does not ship stays as it was. */
  lemma {:induction false} ExtractKeeps(d: Disk, ms: seq<Member>, skip: set<Path>, keep: set<Path>, p: Path)
    requires d.Valid() && Extract(d, ms, skip, keep).Some? && Beyond(ms, p)
    ensures var r := Extract(d, ms, skip, keep).value.disk;
      && r.Valid() && KeepsBytes(d, r)
      && (d.IsLeaf(p) || Writes(ms, skip, p) ==> r.IsLeaf(p))
      && (d.IsLeaf(p) && !Writes(ms, skip, p) ==> SameName(d, r, p))
    decreases |ms|
  {
    if ms != [] {
      var m := ms[0];
      var e := Run(d, Steps(d, m, skip)).value;
      StepsFit(d, m, skip);
      RunValid(d, Steps(d, m, skip));
      assert m in ms;
      PutKeeps(d, m, skip, p);
      ExtractKeeps(e, ms[1..], skip, keep, p);
      assert Writes(ms, skip, p) <==> (p !in skip && !m.what.Dir? && m.path == p) || Writes(ms[1..], skip, p);
    }
  }

  // ----------------------------------------------------------------------------- batch

  ghost predicate BeyondAll(jobs: seq<Job>, p: Path) {
    forall j :: j in jobs ==> Beyond(j.members, p)
  }

  ghost predicate ShipsAny(jobs: seq<Job>, p: Path) {
    exists j :: j in jobs && p in Taken(j)
  }

  lemma {:induction false} BatchKeeps(env: Env, etc: set<FileEntry>, st: State, jobs: seq<Job>, kept: set<Path>, p: Path)
    requires st.disk.Valid() && ApplyJobs(env, etc, st, jobs, kept).Some? && BeyondAll(jobs, p)
    ensures var r := ApplyJobs(env, etc, st, jobs, kept).value.st.disk;
      && r.Valid() && KeepsBytes(st.disk, r)
      && (st.disk.IsLeaf(p) || ShipsAny(jobs, p) ==> r.IsLeaf(p))
      && (st.disk.IsLeaf(p) && !ShipsAny(jobs, p) ==> SameName(st.disk, r, p))
      && (st.disk.IsLeaf(p) && (exists e :: e in etc && e.path == p && Edited(st.disk, e)) ==> SameName(st.disk, r, p))
    decreases |jobs|
  {
    if jobs != [] {
      var j, rest := jobs[0], jobs[1..];
      var skip := Skip(etc, st.disk, j.members);
      var x := Extract(st.disk, j.members, skip, env.keep).value;
      assert j in jobs;
      ExtractKeeps(st.disk, j.members, skip, env.keep, p);
      BatchKeeps(env, etc, Recording(env, st, j, x), rest, kept + PathSet(x.manifest), p);
      assert ShipsAny(jobs, p) <==> p in Taken(j) || ShipsAny(rest, p);
      if p in Taken(j) && p in skip {
        var e :| e in etc && e.path == p && Edited(st.disk, e);
      }
    }
  }

  // ------------------------------------------------------------------- temporary names

  /** A later member, before the `i`th, has this one's name for its temporary file. */
  ghost predicate Overrun(ms: seq<Member>, a: nat, i: nat)
    requires a < |ms|
  {
    exists k :: a < k < i && k < |ms| && ms[k].path != [] && Temp(ms[k].path) == ms[a].path
  }

  lemma PutClears(d: Disk, m: Member, skip: set<Path>, p: Path)
    requires Fits(d, m, skip) && (p != m.path || m.what.Dir?)
    ensures !d.IsLeaf(p) || p == Temp(m.path) ==> !Put(d, m, skip).IsLeaf(p)
  {
    PutAt(d, m, skip, p);
    TempBeside(m.path);
  }

  /** A name that stands for a member's temporary file is cleared, whoever it belonged to. */
  lemma {:induction false} ExtractClears(d: Disk, ms: seq<Member>, skip: set<Path>, keep: set<Path>, p: Path)
    requires Extract(d, ms, skip, keep).Some?
    requires forall m :: m in ms && !m.what.Dir? ==> m.path != p
    ensures !Beyond(ms, p) || !d.IsLeaf(p) ==> !Extract(d, ms, skip, keep).value.disk.IsLeaf(p)
    decreases |ms|
  {
    if ms != [] {
      StepsFit(d, ms[0], skip);
      PutClears(d, ms[0], skip, p);
      ExtractClears(Put(d, ms[0], skip), ms[1..], skip, keep, p);
    }
  }

  lemma {:induction false} BatchClears(env: Env, etc: set<FileEntry>, st: State, jobs: seq<Job>, kept: set<Path>, p: Path)
    requires ApplyJobs(env, etc, st, jobs, kept).Some? && !ShipsAny(jobs, p)
    ensures !BeyondAll(jobs, p) || !st.disk.IsLeaf(p) ==> !ApplyJobs(env, etc, st, jobs, kept).value.st.disk.IsLeaf(p)
    decreases |jobs|
  {
    if jobs != [] {
      var j, rest := jobs[0], jobs[1..];
      var skip := Skip(etc, st.disk, j.members);
      var x := Extract(st.disk, j.members, skip, env.keep).value;
      assert forall m :: m in j.members && !m.what.Dir? ==> m.path in Taken(j);
      ExtractClears(st.disk, j.members, skip, env.keep, p);
      assert forall q :: ShipsAny(rest, q) ==> ShipsAny(jobs, q);
      BatchClears(env, etc, Recording(env, st, j, x), rest, kept + PathSet(x.manifest), p);
    }
  }
}
