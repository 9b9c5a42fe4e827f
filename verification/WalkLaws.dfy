/** Planning and extracting one archive come to the same members. */
module WalkLaws {
  import opened Paths
  import opened Resolution
  import opened Walk
  import opened Disk
  import D = Disk
  import opened Records
  import opened Extraction
  import opened ExtractionLaws

  /** The disk an extraction has got to, against the one it was planned on: the links neither
      side has noted are the same, and what was a directory or a leaf still is. */
  ghost predicate InStep(d0: Disk, d: Disk, made: map<Path, string>) {
    && (forall p :: p !in made ==> Links(made, LinksOn(d)).Target(p) == Links(made, LinksOn(d0)).Target(p))
    && (forall p :: p in d0.nodes ==> p in d.nodes && (d0.nodes[p].Dir? <==> d.nodes[p].Dir?))
  }

  lemma {:induction false} RunSameLinks(a: Links, b: Links, out: Path, queue: seq<string>, hops: nat, follow: bool)
    requires hops <= MAX_HOPS && forall p :: a.Target(p) == b.Target(p)
    ensures Resolution.Run(a, out, queue, hops, follow) == Resolution.Run(b, out, queue, hops, follow)
    decreases MAX_HOPS - hops, |queue|
  {
    if queue != [] {
      var c, rest := queue[0], queue[1..];
      if c == "" || c == "." {
        RunSameLinks(a, b, out, rest, hops, follow);
      } else if c == ".." {
        if out != [] { RunSameLinks(a, b, out[..|out| - 1], rest, hops, follow); }
      } else if rest != [] || follow {
        match a.Target(out + [c])
        case None => RunSameLinks(a, b, out + [c], rest, hops, follow);
        case Some(t) =>
          if hops < MAX_HOPS {
            RunSameLinks(a, b, if Absolute(t) then [] else out, Parts(t) + rest, hops + 1, follow);
          }
      }
    }
  }

  lemma SameLinks(a: Links, b: Links, path: string, follow: bool)
    requires forall p :: a.Target(p) == b.Target(p)
    ensures ResolveOr(a, path, follow) == ResolveOr(b, path, follow)
  {
    RunSameLinks(a, b, [], Parts(path), 0, follow);
  }

  /** What extraction takes, planning takes. */
  lemma TakeInStep(d0: Disk, d: Disk, made: map<Path, string>, raw: Raw)
    requires InStep(d0, d, made) && Take(d, made, raw).Ok?
    ensures Take(d0, made, raw) == Take(d, made, raw)
  {
    var a, b := Links(made, LinksOn(d)), Links(made, LinksOn(d0));
    assert forall p :: a.Target(p) == b.Target(p);
    forall path: string, follow: bool
      ensures ResolveOr(a, path, follow) == ResolveOr(b, path, follow)
    {
      SameLinks(a, b, path, follow);
    }
    assert Walk.Making(a, raw) == Walk.Making(b, raw);
  }

  /** What has to hold of one member for the two walks to stay in step. */
  ghost predicate Tame(d0: Disk, ms: seq<Member>, m: Member) {
    && m.path != []
    && !d0.IsLeaf(Temp(m.path))
    && (m.what.File? || m.what.Hard? ==> m.path !in LinksOn(d0))
    && (m.what.Hard? ==> m.what.to !in LinksOn(d0) && forall n :: n in ms && n.what.Link? ==> n.path != m.what.to)
  }

  /** Putting a tame member on disk keeps the walks in step. */
  lemma PutInStep(d0: Disk, d: Disk, made: map<Path, string>, ms: seq<Member>, m: Member, skip: set<Path>)
    requires InStep(d0, d, made) && Tame(d0, ms, m) && Fits(d, m, skip) && !Trades(d, m.path, m.what)
    requires forall p :: p in made ==> exists n :: n in ms && n.what.Link? && n.path == p
    ensures InStep(d0, Put(d, m, skip), Noting(made, m))
  {
    var e, made' := Put(d, m, skip), Noting(made, m);
    forall p
      ensures p !in made' ==> Links(made', LinksOn(e)).Target(p) == Links(made', LinksOn(d0)).Target(p)
      ensures p in d0.nodes ==> p in e.nodes && (d0.nodes[p].Dir? <==> e.nodes[p].Dir?)
    {
      PutAt(d, m, skip, p);
      assert p !in made ==> Links(made, LinksOn(d)).Target(p) == Links(made, LinksOn(d0)).Target(p);
      if m.what.Hard? {
        var t := m.what.to;
        assert t !in made;
        assert Links(made, LinksOn(d)).Target(t) == Links(made, LinksOn(d0)).Target(t);
      }
    }
  }

  lemma {:induction false} UnpackPlans(d0: Disk, d: Disk, made: map<Path, string>, raws: seq<Raw>, ended: bool, skip: set<Path>, keep: set<Path>, all: seq<Member>, done: nat)
    requires InStep(d0, d, made) && done <= |all|
    requires var r := Unpack(d, made, raws, ended, skip, keep); r.Ok? && r.value.members == all[done..]
    requires forall m :: m in all ==> Tame(d0, all, m)
    requires forall p :: p in made ==> exists n :: n in all && n.what.Link? && n.path == p
    ensures Plan(d0, made, raws, ended) == Ok(all[done..])
    decreases |raws|
  {
    if raws != [] {
      TakeInStep(d0, d, made, raws[0]);
      var taken := Take(d, made, raws[0]).value;
      if taken == None {
        UnpackPlans(d0, d, made, raws[1..], ended, skip, keep, all, done);
      } else {
        var m := taken.value;
        StepsFit(d, m, skip);
        var rest := Unpack(Put(d, m, skip), Noting(made, m), raws[1..], ended, skip, keep);
        assert all[done..] == [m] + rest.value.members;
        assert |all[done..]| == |all| - done;
        assert all[done] == all[done..][0] && all[done + 1..] == all[done..][1..];
        PutInStep(d0, d, made, all, m, skip);
        UnpackPlans(d0, Put(d, m, skip), Noting(made, m), raws[1..], ended, skip, keep, all, done + 1);
      }
    }
  }

  /** If extracting an archive succeeds, planning it on the same root succeeds and lists the
      same members, although extraction changes the disk it resolves against. */
  lemma PlanAgrees(d: Disk, raws: seq<Raw>, ended: bool, skip: set<Path>, keep: set<Path>)
    requires var r := Unpack(d, map[], raws, ended, skip, keep);
      r.Ok? && forall m :: m in r.value.members ==> Tame(d, r.value.members, m)
    ensures Plan(d, map[], raws, ended) == Ok(Unpack(d, map[], raws, ended, skip, keep).value.members)
  {
    var all := Unpack(d, map[], raws, ended, skip, keep).value.members;
    assert all[0..] == all;
    UnpackPlans(d, d, map[], raws, ended, skip, keep, all, 0);
  }

  /** Extracting straight from the archive leaves the disk and the manifest that putting its
      members down one after another does. */
  lemma {:induction false} UnpackExtracts(d: Disk, made: map<Path, string>, raws: seq<Raw>, ended: bool, skip: set<Path>, keep: set<Path>)
    requires Unpack(d, made, raws, ended, skip, keep).Ok?
    ensures var u := Unpack(d, made, raws, ended, skip, keep).value;
      Extract(d, u.members, skip, keep) == Some(Extracted(u.disk, u.manifest))
    decreases |raws|
  {
    if raws != [] {
      var taken := Take(d, made, raws[0]).value;
      if taken == None {
        UnpackExtracts(d, made, raws[1..], ended, skip, keep);
      } else {
        var m := taken.value;
        var e := D.Run(d, Steps(d, m, skip)).value;
        UnpackExtracts(e, Noting(made, m), raws[1..], ended, skip, keep);
        var all := Unpack(d, made, raws, ended, skip, keep).value.members;
        assert all[0] == m && all[1..] == Unpack(e, Noting(made, m), raws[1..], ended, skip, keep).value.members;
      }
    }
  }

  /** So what is planned can be applied, and comes to what unpacking does. */
  lemma PlannedExtracts(d: Disk, raws: seq<Raw>, ended: bool, skip: set<Path>, keep: set<Path>)
    requires var r := Unpack(d, map[], raws, ended, skip, keep);
      r.Ok? && forall m :: m in r.value.members ==> Tame(d, r.value.members, m)
    ensures var (u, plan) := (Unpack(d, map[], raws, ended, skip, keep).value, Plan(d, map[], raws, ended));
      plan.Ok? && Extract(d, plan.value, skip, keep) == Some(Extracted(u.disk, u.manifest))
  {
    PlanAgrees(d, raws, ended, skip, keep);
    UnpackExtracts(d, map[], raws, ended, skip, keep);
  }

  ghost predicate Rising(at: seq<nat>) {
    forall i, j :: 0 <= i < j < |at| ==> at[i] < at[j]
  }

  ghost predicate StandAt(ms: seq<Member>, manifest: seq<Entry<Content, Path>>, keep: set<Path>, at: seq<nat>) {
    |at| == |ms| && forall i :: 0 <= i < |at| ==> at[i] < |manifest| && manifest[at[i]] == Recorded(ms[i], keep)
  }

  ghost predicate ElseDirs(manifest: seq<Entry<Content, Path>>, at: seq<nat>) {
    forall k :: 0 <= k < |manifest| && k !in at ==> manifest[k].kind.Dir?
  }

  /** The members stand in the manifest in the archive's order, at the places `at`; all else
      there is directories made on the way. */
  ghost predicate InOrder(ms: seq<Member>, manifest: seq<Entry<Content, Path>>, keep: set<Path>, at: seq<nat>) {
    StandAt(ms, manifest, keep, at) && Rising(at) && ElseDirs(manifest, at)
  }

  function Shifted(n: nat, at: seq<nat>): (more: seq<nat>)
    ensures |more| == |at| + 1 && more[0] == n && forall i :: 0 < i < |more| ==> more[i] == at[i - 1] + n + 1
  {
    [n] + seq(|at|, i requires 0 <= i < |at| => at[i] + n + 1)
  }

  lemma ShiftedRises(n: nat, at: seq<nat>)
    requires Rising(at)
    ensures Rising(Shifted(n, at))
  {
  }

  lemma ShiftedStands(front: seq<Entry<Content, Path>>, m: Member, ms: seq<Member>, manifest: seq<Entry<Content, Path>>, keep: set<Path>, at: seq<nat>)
    requires front != [] && front[|front| - 1] == Recorded(m, keep) && StandAt(ms, manifest, keep, at)
    ensures StandAt([m] + ms, front + manifest, keep, Shifted(|front| - 1, at))
  {
    var all, out, more := [m] + ms, front + manifest, Shifted(|front| - 1, at);
    forall i | 0 <= i < |more| ensures more[i] < |out| && out[more[i]] == Recorded(all[i], keep) {
      if i > 0 {
        assert at[i - 1] < |manifest| && all[i] == ms[i - 1];
      }
    }
  }

  lemma ShiftedIn(n: nat, at: seq<nat>, x: nat)
    requires x in at
    ensures x + n + 1 in Shifted(n, at)
  {
    var i :| 0 <= i < |at| && at[i] == x;
    assert Shifted(n, at)[i + 1] == x + n + 1;
  }

  lemma ShiftedElse(front: seq<Entry<Content, Path>>, manifest: seq<Entry<Content, Path>>, at: seq<nat>)
    requires front != [] && ElseDirs(manifest, at)
    requires forall i :: 0 <= i < |front| - 1 ==> front[i].kind.Dir?
    ensures ElseDirs(front + manifest, Shifted(|front| - 1, at))
  {
    var n, out, more := |front| - 1, front + manifest, Shifted(|front| - 1, at);
    forall k | 0 <= k < |out| && k !in more ensures out[k].kind.Dir? {
      assert more[0] == n;
      if k > n {
        if k - n - 1 in at {
          ShiftedIn(n, at, k - n - 1);
        }
        assert out[k] == manifest[k - n - 1];
      }
    }
  }

  lemma {:induction false} ManifestOrder(d: Disk, ms: seq<Member>, skip: set<Path>, keep: set<Path>) returns (at: seq<nat>)
    requires Extract(d, ms, skip, keep).Some?
    ensures InOrder(ms, Extract(d, ms, skip, keep).value.manifest, keep, at)
    decreases |ms|
  {
    if ms == [] {
      at := [];
    } else {
      var e := D.Run(d, Steps(d, ms[0], skip)).value;
      var rest := ManifestOrder(e, ms[1..], skip, keep);
      var tail := Extract(e, ms[1..], skip, keep).value.manifest;
      var dirs := Missing(d, Parent(ms[0].path));
      var front := DirEntries(dirs) + [Recorded(ms[0], keep)];
      at := Shifted(|dirs|, rest);
      ShiftedRises(|dirs|, rest);
      ShiftedStands(front, ms[0], ms[1..], tail, keep, rest);
      ShiftedElse(front, tail, rest);
      assert [ms[0]] + ms[1..] == ms;
    }
  }
}
