/** Which paths a batch leaves a leaf at, with members' temporary files in the way. */
module Lasting {
  import opened Paths
  import opened Disk
  import opened Records
  import opened Extraction
  import opened ExtractionLaws
  import opened Lifecycle
  import opened Sweep

  // -------------------------------------------------------------------------- one archive

  /** The member puts a leaf at the path. */
  predicate Puts(m: Member, skip: set<Path>, p: Path) {
    !m.what.Dir? && m.path == p && p !in skip
  }

  /** Some member puts a leaf there that no later one has for its temporary file. */
  ghost predicate Lands(ms: seq<Member>, skip: set<Path>, p: Path) {
    exists a :: 0 <= a < |ms| && Puts(ms[a], skip, p) && !Overrun(ms, a, |ms|)
  }

  lemma PutLeaf(d: Disk, m: Member, skip: set<Path>, p: Path)
    requires Fits(d, m, skip)
    ensures Put(d, m, skip).IsLeaf(p) <==> Puts(m, skip, p) || (d.IsLeaf(p) && p != Temp(m.path))
  {
    PutAt(d, m, skip, p);
    TempBeside(m.path);
  }

  /** The last that puts a leaf there is in front, or among the others. */
  lemma LandsFirst(ms: seq<Member>, rest: seq<Member>, skip: set<Path>, p: Path)
    requires ms != [] && rest == ms[1..]
    ensures Lands(ms, skip, p) <==> Lands(rest, skip, p) || (Puts(ms[0], skip, p) && Beyond(rest, p))
  {
    OverrunFirst(ms, rest);
    forall a | 0 <= a < |rest| ensures Overrun(ms, a + 1, |ms|) <==> Overrun(rest, a, |rest|) {
      OverrunLater(ms, rest, a);
    }
    if Lands(rest, skip, p) {
      var a :| 0 <= a < |rest| && Puts(rest[a], skip, p) && !Overrun(rest, a, |rest|);
      assert Puts(ms[a + 1], skip, p) && !Overrun(ms, a + 1, |ms|);
    }
    if Lands(ms, skip, p) {
      var a :| 0 <= a < |ms| && Puts(ms[a], skip, p) && !Overrun(ms, a, |ms|);
      if a > 0 {
        assert Puts(rest[a - 1], skip, p) && !Overrun(rest, a - 1, |rest|);
      }
    }
  }

  lemma OverrunFirst(ms: seq<Member>, rest: seq<Member>)
    requires ms != [] && rest == ms[1..]
    ensures Overrun(ms, 0, |ms|) <==> !Beyond(rest, ms[0].path)
  {
    if Overrun(ms, 0, |ms|) {
      var k :| 0 < k < |ms| && ms[k].path != [] && Temp(ms[k].path) == ms[0].path;
      assert rest[k - 1] == ms[k] && ms[k] in rest;
    }
    if !Beyond(rest, ms[0].path) {
      var m :| m in rest && m.path != [] && ms[0].path == Temp(m.path);
      var k :| 0 <= k < |rest| && rest[k] == m;
      assert ms[k + 1] == m;
    }
  }

  lemma OverrunLater(ms: seq<Member>, rest: seq<Member>, a: nat)
    requires ms != [] && rest == ms[1..] && a < |rest|
    ensures Overrun(ms, a + 1, |ms|) <==> Overrun(rest, a, |rest|)
  {
    if Overrun(ms, a + 1, |ms|) {
      var k :| a + 1 < k < |ms| && ms[k].path != [] && Temp(ms[k].path) == ms[a + 1].path;
      assert rest[k - 1] == ms[k] && rest[a] == ms[a + 1];
    }
    if Overrun(rest, a, |rest|) {
      var k :| a < k < |rest| && rest[k].path != [] && Temp(rest[k].path) == rest[a].path;
      assert ms[k + 1] == rest[k] && rest[a] == ms[a + 1];
    }
  }

  /** Where an archive's extraction leaves a leaf. */
  lemma {:induction false} ExtractLeaf(d: Disk, ms: seq<Member>, skip: set<Path>, keep: set<Path>, p: Path)
    requires Extract(d, ms, skip, keep).Some?
    ensures Extract(d, ms, skip, keep).value.disk.IsLeaf(p) <==> Lands(ms, skip, p) || (d.IsLeaf(p) && Beyond(ms, p))
    decreases |ms|
  {
    if ms != [] {
      var m, rest := ms[0], ms[1..];
      StepsFit(d, m, skip);
      PutLeaf(d, m, skip, p);
      ExtractLeaf(Put(d, m, skip), rest, skip, keep, p);
      LandsFirst(ms, rest, skip, p);
      BeyondFirst(ms, rest, p);
    }
  }

  lemma BeyondFirst(ms: seq<Member>, rest: seq<Member>, p: Path)
    requires ms != [] && rest == ms[1..] && ms[0].path != []
    ensures Beyond(ms, p) <==> p != Temp(ms[0].path) && Beyond(rest, p)
  {
    assert ms == [ms[0]] + rest;
  }

  // --------------------------------------------------------------------------- the batch

  /** An archive has the path for a member's name or for a temporary one. */
  ghost predicate Touches(j: Job, p: Path) {
    p in Taken(j) || !Beyond(j.members, p)
  }

  /** What such an archive leaves there, on the disk it finds: an edited configuration file stays
      if it is at no temporary name, and otherwise the last member that puts one must not be
      overrun. */
  ghost predicate Settles(etc: set<FileEntry>, d: Disk, j: Job, p: Path) {
    if p in Skip(etc, d, j.members) then Beyond(j.members, p) else Lands(j.members, {}, p)
  }

  /** Outside etc that is a question about the archive alone. */
  lemma PlainSettles(st: State, d: Disk, j: Job, p: Path)
    requires !(|p| > 1 && p[0] == "etc")
    ensures Settles(EtcEntries(st), d, j, p) <==> Lands(j.members, {}, p)
  {
  }

  /** The disk when archive `n` has its turn. */
  ghost function DiskAt(env: Env, etc: set<FileEntry>, st: State, jobs: seq<Job>, kept: set<Path>, n: nat): Disk
    requires n <= |jobs| && ApplyJobs(env, etc, st, jobs, kept).Some?
    decreases n
  {
    if n == 0 then st.disk
    else
      var x := Extract(st.disk, jobs[0].members, Skip(etc, st.disk, jobs[0].members), env.keep).value;
      DiskAt(env, etc, Recording(env, st, jobs[0], x), jobs[1..], kept + PathSet(x.manifest), n - 1)
  }

  /** Archive `n` is the last to touch the path. */
  ghost predicate LastTouch(jobs: seq<Job>, p: Path, n: nat) {
    n < |jobs| && Touches(jobs[n], p) && forall l :: n < l < |jobs| ==> !Touches(jobs[l], p)
  }

  ghost predicate Untouched(jobs: seq<Job>, p: Path) {
    forall l :: 0 <= l < |jobs| ==> !Touches(jobs[l], p)
  }

  /** A leaf nothing touched, or one the last archive to touch the path leaves there. */
  ghost predicate Lasts(env: Env, etc: set<FileEntry>, st: State, jobs: seq<Job>, kept: set<Path>, p: Path)
    requires ApplyJobs(env, etc, st, jobs, kept).Some?
  {
    || (Untouched(jobs, p) && st.disk.IsLeaf(p))
    || exists n: nat :: LastTouch(jobs, p, n) && Settles(etc, DiskAt(env, etc, st, jobs, kept, n), jobs[n], p)
  }

  /** One archive's turn: the path is left alone, or settled. */
  lemma TurnLeaf(env: Env, etc: set<FileEntry>, d: Disk, j: Job, p: Path)
    requires Extract(d, j.members, Skip(etc, d, j.members), env.keep).Some?
    ensures Extract(d, j.members, Skip(etc, d, j.members), env.keep).value.disk.IsLeaf(p)
      <==> if Touches(j, p) then Settles(etc, d, j, p) else d.IsLeaf(p)
  {
    var ms, skip := j.members, Skip(etc, d, j.members);
    ExtractLeaf(d, ms, skip, env.keep, p);
    if p in skip {
      SkipLeaf(etc, d, ms, p);
    } else {
      LandsUnskipped(ms, skip, p);
      TakenLands(j, p);
    }
  }

  lemma SkipLeaf(etc: set<FileEntry>, d: Disk, ms: seq<Member>, p: Path)
    requires p in Skip(etc, d, ms)
    ensures d.IsLeaf(p) && !Lands(ms, Skip(etc, d, ms), p)
  {
  }

  lemma LandsUnskipped(ms: seq<Member>, skip: set<Path>, p: Path)
    requires p !in skip
    ensures Lands(ms, skip, p) <==> Lands(ms, {}, p)
  {
    if a :| 0 <= a < |ms| && Puts(ms[a], skip, p) && !Overrun(ms, a, |ms|) {
      assert Puts(ms[a], {}, p);
    }
    if a :| 0 <= a < |ms| && Puts(ms[a], {}, p) && !Overrun(ms, a, |ms|) {
      assert Puts(ms[a], skip, p);
    }
  }

  /** What is shipped lands unless some temporary name is in the way; what is not does not. */
  lemma TakenLands(j: Job, p: Path)
    ensures p in Taken(j) && Beyond(j.members, p) ==> Lands(j.members, {}, p)
    ensures Lands(j.members, {}, p) ==> p in Taken(j)
  {
    var ms := j.members;
    if p in Taken(j) && Beyond(ms, p) {
      var m :| m in ms && !m.what.Dir? && m.path == p;
      var a :| 0 <= a < |ms| && ms[a] == m;
      assert Puts(ms[a], {}, p) && !Overrun(ms, a, |ms|);
    }
    if Lands(ms, {}, p) {
      var a :| 0 <= a < |ms| && Puts(ms[a], {}, p) && !Overrun(ms, a, |ms|);
      assert ms[a] in ms;
    }
  }

  lemma LastTouchLater(jobs: seq<Job>, rest: seq<Job>, p: Path, n: nat)
    requires jobs != [] && rest == jobs[1..]
    ensures LastTouch(jobs, p, n + 1) <==> LastTouch(rest, p, n)
  {
    if LastTouch(jobs, p, n + 1) {
      forall l | n < l < |rest| ensures !Touches(rest[l], p) {
        assert rest[l] == jobs[l + 1];
      }
    }
    if LastTouch(rest, p, n) {
      forall l | n + 1 < l < |jobs| ensures !Touches(jobs[l], p) {
        assert rest[l - 1] == jobs[l];
      }
    }
  }

  lemma LastTouchFirst(jobs: seq<Job>, rest: seq<Job>, p: Path)
    requires jobs != [] && rest == jobs[1..]
    ensures LastTouch(jobs, p, 0) <==> Touches(jobs[0], p) && Untouched(rest, p)
    ensures Untouched(jobs, p) <==> !Touches(jobs[0], p) && Untouched(rest, p)
  {
    assert forall l :: 0 < l < |jobs| ==> jobs[l] == rest[l - 1];
    assert forall l :: 0 <= l < |rest| ==> rest[l] == jobs[l + 1];
  }

  /** What lasts is decided by the first archive if no other touches the path, and by the rest
      otherwise. */
  lemma LastsFirst(env: Env, etc: set<FileEntry>, st: State, jobs: seq<Job>, kept: set<Path>, p: Path, next: State, rest: seq<Job>, more: set<Path>)
    requires jobs != [] && rest == jobs[1..] && ApplyJobs(env, etc, st, jobs, kept).Some?
    requires var x := Extract(st.disk, jobs[0].members, Skip(etc, st.disk, jobs[0].members), env.keep).value;
      next == Recording(env, st, jobs[0], x) && more == kept + PathSet(x.manifest)
    ensures ApplyJobs(env, etc, next, rest, more).Some?
    ensures Lasts(env, etc, st, jobs, kept, p) <==> Lasts(env, etc, next, rest, more, p)
  {
    LastTouchFirst(jobs, rest, p);
    TurnLeaf(env, etc, st.disk, jobs[0], p);
    if Lasts(env, etc, st, jobs, kept, p) && !Untouched(jobs, p) {
      var n: nat :| LastTouch(jobs, p, n) && Settles(etc, DiskAt(env, etc, st, jobs, kept, n), jobs[n], p);
      if n > 0 {
        LastTouchLater(jobs, rest, p, n - 1);
        assert DiskAt(env, etc, st, jobs, kept, n) == DiskAt(env, etc, next, rest, more, n - 1) && jobs[n] == rest[n - 1];
      }
    }
    if n: nat :| LastTouch(rest, p, n) && Settles(etc, DiskAt(env, etc, next, rest, more, n), rest[n], p) {
      LastTouchLater(jobs, rest, p, n);
      assert DiskAt(env, etc, st, jobs, kept, n + 1) == DiskAt(env, etc, next, rest, more, n) && jobs[n + 1] == rest[n];
    }
    if Untouched(rest, p) && Touches(jobs[0], p) {
      assert DiskAt(env, etc, st, jobs, kept, 0) == st.disk;
    }
  }

  /** Where a batch leaves a leaf. */
  lemma {:induction false} BatchLeaf(env: Env, etc: set<FileEntry>, st: State, jobs: seq<Job>, kept: set<Path>, p: Path)
    requires ApplyJobs(env, etc, st, jobs, kept).Some?
    ensures ApplyJobs(env, etc, st, jobs, kept).value.st.disk.IsLeaf(p) <==> Lasts(env, etc, st, jobs, kept, p)
    decreases |jobs|
  {
    if jobs != [] {
      var x := Extract(st.disk, jobs[0].members, Skip(etc, st.disk, jobs[0].members), env.keep).value;
      var next, rest, more := Recording(env, st, jobs[0], x), jobs[1..], kept + PathSet(x.manifest);
      LastsFirst(env, etc, st, jobs, kept, p, next, rest, more);
      BatchLeaf(env, etc, next, rest, more, p);
    }
  }

  // ------------------------------------------------------------------------ what is there

  /** A member that neither puts a leaf at the path nor has it for its temporary file. */
  ghost predicate LeavesAlone(m: Member, p: Path) {
    !(!m.what.Dir? && m.path == p) && (m.path != [] ==> p != Temp(m.path))
  }

  /** The path holds what the member carries. */
  ghost predicate HoldsMember(d: Disk, m: Member, p: Path) {
    match m.what
    case File(chunks) => d.Bytes(p) == Some(Flat(chunks))
    case Link(t) => p in d.nodes && d.nodes[p] == Node.Link(t)
    case _ => true
  }

  lemma LeftAlone(ms: seq<Member>, skip: set<Path>, p: Path)
    requires forall m :: m in ms ==> LeavesAlone(m, p)
    ensures Beyond(ms, p) && !Sweep.Writes(ms, skip, p)
  {
  }

  lemma HoldsStill(d: Disk, r: Disk, m: Member, p: Path)
    requires HoldsMember(d, m, p) && SameName(d, r, p) && KeepsBytes(d, r)
    ensures HoldsMember(r, m, p)
  {
  }

  lemma PutHolds(d: Disk, m: Member, skip: set<Path>, p: Path)
    requires d.Valid() && Fits(d, m, skip) && (m.what.File? || m.what.Link?) && m.path == p && p !in skip
    ensures HoldsMember(Put(d, m, skip), m, p) && Put(d, m, skip).IsLeaf(p)
  {
    PutAt(d, m, skip, p);
    PutData(d, m, skip);
  }

  /** After an archive the path holds what its last member there carries. */
  lemma {:induction false} ExtractHolds(d: Disk, ms: seq<Member>, skip: set<Path>, keep: set<Path>, p: Path, a: nat)
    requires d.Valid() && Extract(d, ms, skip, keep).Some? && p !in skip
    requires a < |ms| && (ms[a].what.File? || ms[a].what.Link?) && ms[a].path == p
    requires forall b :: a < b < |ms| ==> LeavesAlone(ms[b], p)
    ensures var r := Extract(d, ms, skip, keep).value.disk; HoldsMember(r, ms[a], p) && r.IsLeaf(p) && r.Valid()
    decreases |ms|
  {
    var m, rest, e := ms[0], ms[1..], Put(d, ms[0], skip);
    StepsFit(d, m, skip);
    RunValid(d, Steps(d, m, skip));
    if a > 0 {
      assert forall b :: a - 1 < b < |rest| ==> rest[b] == ms[b + 1];
      ExtractHolds(e, rest, skip, keep, p, a - 1);
    } else {
      PutHolds(d, m, skip, p);
      assert forall n :: n in rest ==> LeavesAlone(n, p);
      LeftAlone(rest, skip, p);
      ExtractKeeps(e, rest, skip, keep, p);
      HoldsStill(e, Extract(e, rest, skip, keep).value.disk, m, p);
    }
  }

  lemma JobsLeftAlone(jobs: seq<Job>, p: Path)
    requires forall l, b :: 0 <= l < |jobs| && 0 <= b < |jobs[l].members| ==> LeavesAlone(jobs[l].members[b], p)
    ensures BeyondAll(jobs, p) && !ShipsAny(jobs, p)
  {
  }

  /** Member `a` of archive `n` is the last of the batch to put a leaf at the path, and no later
      one has it for its temporary file. */
  ghost predicate LastAt(jobs: seq<Job>, p: Path, n: nat, a: nat) {
    && n < |jobs| && a < |jobs[n].members|
    && (jobs[n].members[a].what.File? || jobs[n].members[a].what.Link?) && jobs[n].members[a].path == p
    && (forall b :: a < b < |jobs[n].members| ==> LeavesAlone(jobs[n].members[b], p))
    && (forall l, b :: n < l < |jobs| && 0 <= b < |jobs[l].members| ==> LeavesAlone(jobs[l].members[b], p))
  }

  /** None of the recorded configuration files of the path has been edited. */
  ghost predicate Unedited(etc: set<FileEntry>, d: Disk, p: Path) {
    forall e :: e in etc && e.path == p ==> !Edited(d, e)
  }

  /** No member of the first `n` archives has to do with the path. */
  ghost predicate FirstAt(jobs: seq<Job>, p: Path, n: nat) {
    forall l, b :: 0 <= l < n && l < |jobs| && 0 <= b < |jobs[l].members| ==> LeavesAlone(jobs[l].members[b], p)
  }

  lemma UneditedStill(env: Env, etc: set<FileEntry>, d: Disk, ms: seq<Member>, skip: set<Path>, p: Path)
    requires d.Valid() && Extract(d, ms, skip, env.keep).Some? && Unedited(etc, d, p) && forall m :: m in ms ==> LeavesAlone(m, p)
    ensures Unedited(etc, Extract(d, ms, skip, env.keep).value.disk, p)
  {
    LeftAlone(ms, skip, p);
    ExtractKeeps(d, ms, skip, env.keep, p);
    ExtractLeaf(d, ms, skip, env.keep, p);
    forall a | 0 <= a < |ms| ensures !Puts(ms[a], skip, p) {
      assert LeavesAlone(ms[a], p);
    }
  }

  /** After a batch it holds what that one carries, if no recorded configuration file has the
      path, or none of them is edited and no earlier archive ships it. */
  lemma {:induction false} BatchHolds(env: Env, etc: set<FileEntry>, st: State, jobs: seq<Job>, kept: set<Path>, p: Path, n: nat, a: nat)
    requires st.disk.Valid() && ApplyJobs(env, etc, st, jobs, kept).Some? && LastAt(jobs, p, n, a)
    requires (forall e :: e in etc ==> e.path != p) || (Unedited(etc, st.disk, p) && FirstAt(jobs, p, n))
    ensures var r := ApplyJobs(env, etc, st, jobs, kept).value.st.disk; HoldsMember(r, jobs[n].members[a], p) && r.IsLeaf(p)
    decreases |jobs|
  {
    var j, rest, skip := jobs[0], jobs[1..], Skip(etc, st.disk, jobs[0].members);
    var x := Extract(st.disk, j.members, skip, env.keep).value;
    var next, more := Recording(env, st, j, x), kept + PathSet(x.manifest);
    assert forall l :: 0 <= l < |rest| ==> rest[l] == jobs[l + 1];
    if n > 0 {
      var q: Path := [];
      ExtractKeeps(st.disk, j.members, skip, env.keep, q);
      if FirstAt(jobs, p, n) && Unedited(etc, st.disk, p) {
        UneditedStill(env, etc, st.disk, j.members, skip, p);
      }
      BatchHolds(env, etc, next, rest, more, p, n - 1, a);
    } else {
      ExtractHolds(st.disk, j.members, skip, env.keep, p, a);
      JobsLeftAlone(rest, p);
      BatchKeeps(env, etc, next, rest, more, p);
      HoldsStill(x.disk, ApplyJobs(env, etc, next, rest, more).value.st.disk, j.members[a], p);
    }
  }

  // ------------------------------------------------------------------ edited configuration

  /** The path is a leaf before every archive, and after the last. */
  ghost predicate Throughout(env: Env, etc: set<FileEntry>, st: State, jobs: seq<Job>, kept: set<Path>, p: Path)
    requires ApplyJobs(env, etc, st, jobs, kept).Some?
  {
    forall n :: 0 <= n <= |jobs| ==> DiskAt(env, etc, st, jobs, kept, n).IsLeaf(p)
  }

  /** An edited configuration file is there throughout exactly if it is at no member's temporary
      name: the archive that has it for one does not put it back. */
  lemma {:induction false} EditedThroughout(env: Env, etc: set<FileEntry>, st: State, jobs: seq<Job>, kept: set<Path>, e: FileEntry)
    requires ApplyJobs(env, etc, st, jobs, kept).Some? && st.disk.Valid() && e in etc && Edited(st.disk, e)
    ensures Throughout(env, etc, st, jobs, kept, e.path) <==> BeyondAll(jobs, e.path)
    decreases |jobs|
  {
    var p := e.path;
    if jobs != [] {
      var j, rest, skip := jobs[0], jobs[1..], Skip(etc, st.disk, jobs[0].members);
      var x := Extract(st.disk, j.members, skip, env.keep).value;
      var next, more := Recording(env, st, j, x), kept + PathSet(x.manifest);
      TurnLeaf(env, etc, st.disk, j, p);
      EditedSkipped(etc, st.disk, j, e);
      if Beyond(j.members, p) {
        ExtractKeeps(st.disk, j.members, skip, env.keep, p);
        EditedThroughout(env, etc, next, rest, more, e);
        ThroughoutFirst(env, etc, st, jobs, kept, p, next, rest, more);
        BeyondRest(jobs, rest, p);
      } else {
        BeyondRest(jobs, rest, p);
        assert DiskAt(env, etc, st, jobs, kept, 1) == x.disk;
      }
    }
  }

  lemma BeyondRest(jobs: seq<Job>, rest: seq<Job>, p: Path)
    requires jobs != [] && rest == jobs[1..]
    ensures BeyondAll(jobs, p) <==> Beyond(jobs[0].members, p) && BeyondAll(rest, p)
  {
    assert jobs == [jobs[0]] + rest;
  }

  lemma EditedSkipped(etc: set<FileEntry>, d: Disk, j: Job, e: FileEntry)
    requires e in etc && Edited(d, e)
    ensures d.IsLeaf(e.path) && (e.path in Taken(j) ==> e.path in Skip(etc, d, j.members))
  {
  }

  lemma ThroughoutFirst(env: Env, etc: set<FileEntry>, st: State, jobs: seq<Job>, kept: set<Path>, p: Path, next: State, rest: seq<Job>, more: set<Path>)
    requires jobs != [] && rest == jobs[1..] && ApplyJobs(env, etc, st, jobs, kept).Some? && ApplyJobs(env, etc, next, rest, more).Some?
    requires var x := Extract(st.disk, jobs[0].members, Skip(etc, st.disk, jobs[0].members), env.keep).value;
      next == Recording(env, st, jobs[0], x) && more == kept + PathSet(x.manifest)
    requires st.disk.IsLeaf(p)
    ensures Throughout(env, etc, st, jobs, kept, p) <==> Throughout(env, etc, next, rest, more, p)
  {
    forall n: nat | n <= |rest| ensures DiskAt(env, etc, st, jobs, kept, n + 1) == DiskAt(env, etc, next, rest, more, n) {
      NextDisk(env, etc, st, jobs, kept, next, rest, more, n);
    }
    if Throughout(env, etc, st, jobs, kept, p) {
      forall n | 0 <= n <= |rest| ensures DiskAt(env, etc, next, rest, more, n).IsLeaf(p) {
        assert DiskAt(env, etc, st, jobs, kept, n + 1).IsLeaf(p);
      }
    }
    if Throughout(env, etc, next, rest, more, p) {
      forall n | 0 <= n <= |jobs| ensures DiskAt(env, etc, st, jobs, kept, n).IsLeaf(p) {
        if n > 0 {
          assert DiskAt(env, etc, next, rest, more, n - 1).IsLeaf(p);
        }
      }
    }
  }

  lemma NextDisk(env: Env, etc: set<FileEntry>, st: State, jobs: seq<Job>, kept: set<Path>, next: State, rest: seq<Job>, more: set<Path>, n: nat)
    requires jobs != [] && rest == jobs[1..] && n <= |rest| && ApplyJobs(env, etc, st, jobs, kept).Some? && ApplyJobs(env, etc, next, rest, more).Some?
    requires var x := Extract(st.disk, jobs[0].members, Skip(etc, st.disk, jobs[0].members), env.keep).value;
      next == Recording(env, st, jobs[0], x) && more == kept + PathSet(x.manifest)
    ensures DiskAt(env, etc, st, jobs, kept, n + 1) == DiskAt(env, etc, next, rest, more, n)
  {
  }
}
