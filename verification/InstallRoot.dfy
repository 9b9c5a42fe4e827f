/** The installer as install.rs and archive.rs run it: one root, changed call by call. Every
    method is held to the value-level lifecycle. */
module InstallRoot {
  import opened Paths
  import opened Disk
  import opened Records
  import opened Extraction
  import opened ExtractionLaws
  import L = Lifecycle
  import opened Dependencies

  /** An entry whose name may go: in a directory that is there, a leaf that still is what was
      recorded, or an unprotected directory that nothing sits in. */
  ghost predicate Expendable(d: Disk, e: L.FileEntry, sums: map<Path, Content>) {
    && d.IsDir(Parent(e.path))
    && (e.kind.Dir? ==> e.path !in L.PROTECTED && d.IsDir(e.path) && !(exists q :: q in d.nodes && q != [] && Parent(q) == e.path))
    && (!e.kind.Dir? ==> L.Matches(d, e, sums))
  }

  class Root {
    var disk: Disk
    var installed: map<L.Key, L.Installed>
    var provided: map<L.Key, seq<Provide<Path>>>
    var preserved: map<L.Key, map<Path, L.FileEntry>>

    ghost function Now(): L.State
      reads this
    {
      L.State(disk, installed, provided, preserved)
    }

    constructor (disk: Disk)
      ensures Now() == L.State(disk, map[], map[], map[])
    {
      this.disk, installed, provided, preserved := disk, map[], map[], map[];
    }

    // --------------------------------------------------------------------- extraction

    /** One call on the disk. */
    method Call(s: Step) returns (ok: bool)
      modifies this`disk
      ensures ok <==> Do(old(disk), s).Some?
      ensures disk == if ok then Do(old(disk), s).value else old(disk)
    {
      var r := Do(disk, s);
      ok := r.Some?;
      if ok {
        disk := r.value;
      }
    }

    /** The directories above a member, made one component at a time. */
    method OpenParent(parent: Path) returns (ok: bool, made: seq<L.FileEntry>)
      requires disk.Valid()
      modifies this`disk
      ensures var r := Run(old(disk), Mkdirs(Missing(old(disk), parent)));
        && (ok <==> r.Some? && r.value.IsDir(parent))
        && (ok ==> disk == r.value)
      ensures made == DirEntries(Missing(old(disk), parent)) || !ok
    {
      made := [];
      ok := true;
      ghost var d := disk;
      for k := 0 to |parent|
        invariant made == DirEntries(Missing(d, parent[..k]))
        invariant Run(d, Mkdirs(Missing(d, parent[..k]))) == Some(disk)
      {
        var walked := parent[..k + 1];
        MkdirNext(d, disk, parent, k);
        if disk.IsDir(walked) {
          continue;
        }
        ok := Call(Mkdir(walked));
        if !ok {
          StillMissing(d, parent, k + 1);
          return;
        }
        made := made + [Entry(0x1ED, Kind.Dir, walked)];
      }
      assert parent[..|parent|] == parent;
      ok := disk.IsDir(parent);
    }

    /** A list of calls, given up at the first that fails. */
    method Calls(steps: seq<Step>) returns (ok: bool)
      modifies this`disk
      ensures ok <==> Run(old(disk), steps).Some?
      ensures ok ==> disk == Run(old(disk), steps).value
    {
      ghost var d := disk;
      assert steps[0..] == steps;
      for i := 0 to |steps|
        invariant Run(disk, steps[i..]) == Run(d, steps)
      {
        assert steps[i..][0] == steps[i] && steps[i..][1..] == steps[i + 1..];
        ok := Call(steps[i]);
        if !ok {
          return;
        }
      }
      ok := true;
    }

    /** One member: the directories above it, then the member under its temporary name, then
        the rename over what was there. */
    method PutMember(m: Member, skip: set<Path>, keep: set<Path>) returns (ok: bool, made: seq<L.FileEntry>)
      requires disk.Valid() && m.path != []
      modifies this`disk
      ensures ok <==> Run(old(disk), Steps(old(disk), m, skip)).Some?
      ensures ok ==> disk == Run(old(disk), Steps(old(disk), m, skip)).value && disk.Valid()
      ensures ok ==> made == Entries(old(disk), m, keep)
    {
      ghost var d := disk;
      var up, temp := Parent(m.path), Temp(m.path);
      StepsInTwo(d, m, skip);
      RunValid(d, Steps(d, m, skip));
      ok, made := OpenParent(up);
      if !ok {
        return;
      }
      ok := Calls([Open(up), Clear(temp)] + Making(m, skip) + Placing(m, skip));
      made := made + [Recorded(m, keep)];
    }

    method Extract(members: seq<Member>, skip: set<Path>, keep: set<Path>) returns (ok: bool, manifest: seq<L.FileEntry>)
      requires disk.Valid()
      modifies this`disk
      ensures var x := Extraction.Extract(old(disk), members, skip, keep);
        && (ok <==> x.Some?)
        && (ok ==> x == Some(Extracted(disk, manifest)) && disk.Valid())
    {
      manifest := [];
      ghost var whole := Extraction.Extract(disk, members, skip, keep);
      assert members[0..] == members;
      OntoNothing(whole);
      for i := 0 to |members|
        invariant disk.Valid()
        invariant whole == Onto(manifest, Extraction.Extract(disk, members[i..], skip, keep))
      {
        assert members[i..][0] == members[i] && members[i..][1..] == members[i + 1..];
        var m := members[i];
        if m.path == [] {
          return false, [];
        }
        ghost var d := disk;
        var made: seq<L.FileEntry>;
        ok, made := PutMember(m, skip, keep);
        if !ok {
          return;
        }
        OntoOnto(manifest, made, Extraction.Extract(disk, members[i + 1..], skip, keep));
        manifest := manifest + made;
      }
      assert members[|members|..] == [] && manifest + [] == manifest;
      ok := true;
    }

    // ------------------------------------------------------------------------- removal

    /** Only the entry's own name may go: a leaf that still is what was recorded, or a directory
        with nothing in it that no rule protects. Each leaf is counted once, as gone, as missing
        or as kept for having changed. */
    method UnlinkEntry(e: L.FileEntry, sums: map<Path, Content>, tally: L.Removed) returns (after: L.Removed)
      modifies this`disk
      ensures disk.data == old(disk.data) && disk.next == old(disk.next)
      ensures forall p :: p != e.path ==> (p in disk.nodes <==> p in old(disk.nodes))
      ensures forall p :: p in disk.nodes ==> p in old(disk.nodes) && disk.nodes[p] == old(disk.nodes)[p]
      ensures e.path in disk.nodes <==> e.path in old(disk.nodes) && !Expendable(old(disk), e, sums)
      ensures after.gone == tally.gone + (if !e.kind.Dir? && e.path in old(disk.nodes) && e.path !in disk.nodes then 1 else 0)
      ensures after.missing == tally.missing
        + (if !old(disk).IsDir(Parent(e.path)) || (!e.kind.Dir? && e.path !in old(disk.nodes)) then 1 else 0)
      ensures !e.kind.Dir? ==> after.gone + after.missing + after.kept == tally.gone + tally.missing + tally.kept + 1
      ensures e.kind.Dir? ==> after.kept == tally.kept
      ensures L.Swept(disk, after) == L.UnlinkOne(L.Swept(old(disk), tally), e, sums)
    {
      after := tally;
      if !disk.IsDir(Parent(e.path)) {
        after := after.(missing := after.missing + 1);
      } else if e.kind.Dir? {
        if e.path !in L.PROTECTED && e.path in disk.nodes && disk.nodes[e.path].Dir? && disk.Empty(e.path) {
          disk := disk.(nodes := disk.nodes - {e.path});
        }
      } else if L.Matches(disk, e, sums) {
        disk := disk.(nodes := disk.nodes - {e.path});
        after := after.(gone := after.gone + 1);
      } else if e.path !in disk.nodes {
        after := after.(missing := after.missing + 1);
      } else {
        after := after.(kept := after.kept + 1);
      }
    }

    /** Path to recorded content, filled front to back. */
    method SumsOf(all: seq<L.FileEntry>) returns (sums: map<Path, Content>)
      ensures sums == L.Sums(all)
    {
      sums := map[];
      for i := 0 to |all|
        invariant sums == L.Sums(all[..i])
      {
        assert all[..i + 1][..i] == all[..i];
        if all[i].kind.File? {
          sums := sums[all[i].path := all[i].kind.sum];
        }
      }
      assert all[..|all|] == all;
    }

    /** The entries, last first. */
    method Unlink(entries: seq<L.FileEntry>, all: seq<L.FileEntry>) returns (tally: L.Removed)
      modifies this`disk
      ensures L.Swept(disk, tally) == L.Unlink(L.Swept(old(disk), L.NOTHING), entries, L.Sums(all))
    {
      var sums := SumsOf(all);
      tally := L.NOTHING;
      ghost var end := L.Unlink(L.Swept(disk, tally), entries, sums);
      var i := |entries|;
      assert entries[..i] == entries;
      while i > 0
        invariant 0 <= i <= |entries|
        invariant L.Unlink(L.Swept(disk, tally), entries[..i], sums) == end
      {
        i := i - 1;
        assert entries[..i + 1][..i] == entries[..i];
        tally := UnlinkEntry(entries[i], sums, tally);
      }
    }

    method StaleOf(manifest: seq<L.FileEntry>, kept: set<Path>) returns (gone: seq<L.FileEntry>)
      ensures gone == L.Stale(manifest, kept)
    {
      gone := [];
      assert manifest[0..] == manifest;
      for i := 0 to |manifest|
        invariant gone + L.Stale(manifest[i..], kept) == L.Stale(manifest, kept)
      {
        assert manifest[i..][0] == manifest[i] && manifest[i..][1..] == manifest[i + 1..];
        if manifest[i].path !in kept {
          gone := gone + [manifest[i]];
        }
      }
    }

    method Prune(was: seq<Option<L.Installed>>, kept: set<Path>)
      modifies this`disk
      ensures disk == L.Prune(old(disk), was, kept)
    {
      ghost var end := L.Prune(disk, was, kept);
      assert was[0..] == was;
      for i := 0 to |was|
        invariant L.Prune(disk, was[i..], kept) == end
      {
        assert was[i..][0] == was[i] && was[i..][1..] == was[i + 1..];
        if was[i].Some? {
          var gone := StaleOf(was[i].value.manifest, kept);
          var _ := Unlink(gone, was[i].value.manifest);
        }
      }
    }

    method Forget(k: L.Key)
      modifies this`installed, this`provided
      ensures Now() == L.Forget(old(Now()), k)
    {
      installed := installed - {k};
      provided := provided - {k};
    }

    method RemoveRecords(target: string, names: seq<string>, recs: map<string, L.Installed>)
      returns (outcome: L.Outcome, tallies: seq<L.Removed>)
      requires forall n <- names :: n in recs
      modifies this
      ensures var r := L.RemoveAll(old(Now()), target, names, recs);
        && Now() == r.st && outcome == r.outcome
        && (outcome == L.Gone ==> tallies == r.tallies)
    {
      tallies := [];
      ghost var whole := L.RemoveAll(Now(), target, names, recs);
      assert names[0..] == names;
      for i := 0 to |names|
        invariant var left := L.RemoveAll(Now(), target, names[i..], recs);
          && whole.st == left.st && whole.outcome == left.outcome
          && (whole.outcome == L.Gone ==> whole.tallies == tallies + left.tallies)
      {
        assert names[i..][0] == names[i] && names[i..][1..] == names[i + 1..];
        var rec, k := recs[names[i]], L.Key(target, names[i]);
        var there := k in installed;
        var tally := Unlink(rec.manifest, rec.manifest);
        Forget(k);
        if !there {
          return L.HalfGone, [];
        }
        tallies := tallies + [tally];
      }
      outcome := L.Gone;
    }

    /** No name goes before every record is found and nothing else needs them. */
    method Remove(target: string, names: seq<string>, force: bool) returns (outcome: L.Outcome, tallies: seq<L.Removed>)
      modifies this
      ensures var r := L.Remove(old(Now()), target, names, force);
        && Now() == r.st && outcome == r.outcome
        && (outcome == L.Gone ==> tallies == r.tallies)
    {
      if exists n <- names :: L.Key(target, n) !in installed {
        return L.NotInstalled, [];
      }
      if !force && (exists k <- installed.Keys :: k.target == target && k.name !in names && L.Needs(installed[k], names)) {
        return L.StillNeeded, [];
      }
      var recs := map n | n in names :: installed[L.Key(target, n)];
      assert recs == L.RecordsOf(Now(), target, names);
      outcome, tallies := RemoveRecords(target, names, recs);
    }

    // -------------------------------------------------------------------------- checks

    method LeavesOf(manifest: seq<L.FileEntry>) returns (leaves: set<Path>)
      ensures leaves == set e | e in manifest && !e.kind.Dir? :: e.path
    {
      leaves := {};
      for i := 0 to |manifest|
        invariant leaves == set e | e in manifest[..i] && !e.kind.Dir? :: e.path
      {
        assert manifest[..i + 1] == manifest[..i] + [manifest[i]];
        if !manifest[i].kind.Dir? {
          leaves := leaves + {manifest[i].path};
        }
      }
      assert manifest[..|manifest|] == manifest;
    }

    /** `who` has the path: a record that stays, or a package of the batch. */
    ghost predicate Has(jobs: seq<L.Job>, p: Path, who: string)
      reads this
    {
      || (exists k :: k in installed && k !in L.JobKeys(jobs) && k.name == who && L.Claims(installed[k], p))
      || (exists j :: j in jobs && j.key.name == who && p in L.Taken(j))
    }

    /** Who owns what, among the records the batch does not replace. */
    method Owners(jobs: seq<L.Job>) returns (owner: map<Path, string>)
      ensures owner.Keys == L.OwnedPaths(Now(), L.JobKeys(jobs))
      ensures forall p :: p in owner ==> Has(jobs, p, owner[p])
    {
      owner := map[];
      var replacing := L.JobKeys(jobs);
      var todo := installed.Keys - replacing;
      while todo != {}
        invariant todo <= installed.Keys - replacing
        invariant owner.Keys == L.OwnedPaths(Now(), replacing + todo)
        invariant forall p :: p in owner ==> Has(jobs, p, owner[p])
      {
        var k :| k in todo;
        var mine := LeavesOf(installed[k].manifest);
        OwnedOne(Now(), replacing, todo, k, mine);
        todo := todo - {k};
        owner := OwnedBy(jobs, k, mine, owner);
      }
      assert replacing + {} == replacing;
    }

    /** The owners with one package's paths among them. */
    method OwnedBy(jobs: seq<L.Job>, k: L.Key, mine: set<Path>, owner: map<Path, string>) returns (now: map<Path, string>)
      requires k in installed && k !in L.JobKeys(jobs) && forall p :: p in mine ==> L.Claims(installed[k], p)
      requires forall p :: p in owner ==> Has(jobs, p, owner[p])
      ensures now.Keys == owner.Keys + mine && forall p :: p in now ==> Has(jobs, p, now[p])
    {
      now := owner + map p | p in mine :: k.name;
    }

    /** One job's paths against the owners so far; the free ones are its own from here on. */
    method ConflictsOf(jobs: seq<L.Job>, j: L.Job, owner: map<Path, string>) returns (at: seq<(Path, string)>, now: map<Path, string>)
      requires j in jobs && forall p :: p in owner ==> Has(jobs, p, owner[p])
      ensures Firsts(at) == L.Clashing(owner.Keys, L.LeafPaths(j.members))
      ensures now.Keys == owner.Keys + Elements(L.LeafPaths(j.members))
      ensures forall p :: p in now ==> Has(jobs, p, now[p])
      ensures forall i :: 0 <= i < |at| ==> Has(jobs, at[i].0, at[i].1)
    {
      at, now := [], owner;
      var ms := j.members;
      ghost var whole, reach := L.Clashing(owner.Keys, L.LeafPaths(ms)), owner.Keys + Elements(L.LeafPaths(ms));
      assert ms[0..] == ms && Firsts(at) + whole == whole;
      for k := 0 to |ms|
        invariant Firsts(at) + L.Clashing(now.Keys, L.LeafPaths(ms[k..])) == whole
        invariant now.Keys + Elements(L.LeafPaths(ms[k..])) == reach
        invariant forall p :: p in now ==> Has(jobs, p, now[p])
        invariant forall i :: 0 <= i < |at| ==> Has(jobs, at[i].0, at[i].1)
      {
        assert ms[k..][0] == ms[k] && ms[k..][1..] == ms[k + 1..];
        var p := ms[k].path;
        if ms[k].what.Dir? {
          assert L.LeafPaths(ms[k..]) == L.LeafPaths(ms[k + 1..]);
          continue;
        }
        ghost var rest, left := L.LeafPaths(ms[k + 1..]), L.LeafPaths(ms[k..]);
        ClashingStep(now.Keys, p, rest, left);
        ElementsCons(p, rest, left);
        ConcatAssociates(Firsts(at), [p], L.Clashing(now.Keys, rest));
        if p in now {
          FirstsSnoc(at, (p, now[p]));
          at := at + [(p, now[p])];
        } else {
          assert p in L.Taken(j);
          assert now[p := j.key.name].Keys == now.Keys + {p};
          now := now[p := j.key.name];
        }
      }
    }

    /** Every shipped path somebody already has, in order, with who has it. */
    method Conflicts(jobs: seq<L.Job>) returns (at: seq<(Path, string)>)
      ensures Firsts(at) == L.Clashing(L.OwnedPaths(Now(), L.JobKeys(jobs)), L.AllLeafPaths(jobs))
      ensures forall i :: 0 <= i < |at| ==> Has(jobs, at[i].0, at[i].1)
    {
      at := [];
      var owner := Owners(jobs);
      ghost var whole := L.Clashing(owner.Keys, L.AllLeafPaths(jobs));
      assert jobs[0..] == jobs;
      for i := 0 to |jobs|
        invariant Firsts(at) + L.Clashing(owner.Keys, L.AllLeafPaths(jobs[i..])) == whole
        invariant forall p :: p in owner ==> Has(jobs, p, owner[p])
        invariant forall k :: 0 <= k < |at| ==> Has(jobs, at[k].0, at[k].1)
      {
        assert jobs[i..][0] == jobs[i] && jobs[i..][1..] == jobs[i + 1..];
        ClashingSplit(owner.Keys, L.LeafPaths(jobs[i].members), L.AllLeafPaths(jobs[i + 1..]));
        var found, now := ConflictsOf(jobs, jobs[i], owner);
        FirstsAppend(at, found);
        ConcatAssociates(Firsts(at), Firsts(found), L.Clashing(now.Keys, L.AllLeafPaths(jobs[i + 1..])));
        at, owner := at + found, now;
      }
    }

    method UnmetOfJob(jobs: seq<L.Job>, j: L.Job) returns (missing: seq<(string, string)>)
      ensures missing == L.UnmetBy(Now(), jobs, j, j.depends)
    {
      missing := [];
      var ds := j.depends;
      assert ds[0..] == ds;
      for k := 0 to |ds|
        invariant missing + L.UnmetBy(Now(), jobs, j, ds[k..]) == L.UnmetBy(Now(), jobs, j, ds)
      {
        assert ds[k..][0] == ds[k] && ds[k..][1..] == ds[k + 1..];
        var d := ds[k];
        if d.make || L.Key(j.key.target, d.name) in installed || (exists o <- jobs :: o.key.name == d.name) {
          continue;
        }
        missing := missing + [(j.key.name, d.name)];
      }
    }

    method UnmetOf(jobs: seq<L.Job>) returns (missing: seq<(string, string)>)
      ensures missing == L.UnmetAll(Now(), jobs, jobs)
    {
      missing := [];
      ghost var whole := L.UnmetAll(Now(), jobs, jobs);
      assert jobs[0..] == jobs;
      assert missing + whole == whole;
      for i := 0 to |jobs|
        invariant missing + L.UnmetAll(Now(), jobs, jobs[i..]) == whole
      {
        assert jobs[i..][0] == jobs[i] && jobs[i..][1..] == jobs[i + 1..];
        var found := UnmetOfJob(jobs, jobs[i]);
        ghost var rest := L.UnmetAll(Now(), jobs, jobs[i + 1..]);
        assert L.UnmetAll(Now(), jobs, jobs[i..]) == found + rest;
        ConcatAssociates(missing, found, rest);
        missing := missing + found;
      }
      assert missing + [] == missing;
    }

    /** A refusal has the findings of either check. */
    method Plan(jobs: seq<L.Job>, force: bool) returns (ok: bool, owned: seq<(Path, string)>, missing: seq<(string, string)>)
      ensures ok <==> force || L.Accepts(Now(), jobs)
      ensures !ok ==> owned != [] || missing != []
      ensures forall i :: 0 <= i < |owned| ==> Has(jobs, owned[i].0, owned[i].1)
      ensures !force ==>
        && Firsts(owned) == L.Clashing(L.OwnedPaths(Now(), L.JobKeys(jobs)), L.AllLeafPaths(jobs))
        && missing == L.UnmetAll(Now(), jobs, jobs)
    {
      owned, missing := [], [];
      if !force {
        owned := Conflicts(jobs);
        missing := UnmetOf(jobs);
        AcceptsChecks(Now(), jobs);
        FirstsSize(owned);
      }
      ok := owned == [] && missing == [];
    }

    // --------------------------------------------------------------------------- apply

    method ScanOf(env: L.Env, manifest: seq<L.FileEntry>) returns (found: seq<Provide<Path>>)
      ensures found == L.Scan(env, disk, manifest)
    {
      found := [];
      ghost var whole := L.Scan(env, disk, manifest);
      assert manifest[0..] == manifest;
      for i := 0 to |manifest|
        invariant found + L.Scan(env, disk, manifest[i..]) == whole
      {
        var e := manifest[i];
        var more: seq<Provide<Path>> := [];
        if e.kind.File? {
          var c := disk.Bytes(e.path);
          if c.Some? && env.elf(c.value).Some? {
            var lib := env.elf(c.value).value;
            more := [Provide(lib.soname, lib.versioned, e.path)];
          }
        }
        ScanFirst(env, disk, manifest, i, more);
        ConcatAssociates(found, more, L.Scan(env, disk, manifest[i + 1..]));
        found := found + more;
      }
    }

    /** The sonames of a record's libraries, from the files as they are now. */
    method LibrariesOf(env: L.Env, rec: Option<L.Installed>) returns (libs: map<Path, string>)
      ensures libs == L.Libraries(env, disk, rec)
    {
      libs := map[];
      if rec.Some? {
        var found := ScanOf(env, rec.value.manifest);
        for i := 0 to |found|
          invariant libs == L.Sonames(found[..i])
        {
          assert found[..i + 1][..i] == found[..i];
          libs := libs[found[i].path := found[i].soname];
        }
        assert found[..|found|] == found;
      }
    }

    method EtcOf() returns (etc: set<L.FileEntry>)
      ensures etc == L.EtcEntries(Now())
    {
      etc := {};
      var todo := installed.Keys;
      while todo != {}
        invariant todo <= installed.Keys
        invariant etc == set k, e | k in installed.Keys - todo && e in installed[k].manifest && L.UnderEtc(e.path) :: e
      {
        var k :| k in todo;
        var mine := set e | e in installed[k].manifest && L.UnderEtc(e.path);
        assert installed.Keys - (todo - {k}) == installed.Keys - todo + {k};
        todo := todo - {k};
        etc := etc + mine;
      }
      assert installed.Keys - {} == installed.Keys;
    }

    /** The edited ones of some recorded files. */
    method Modified(some: set<L.FileEntry>) returns (out: set<Path>)
      ensures out == set e | e in some && L.Edited(disk, e) :: e.path
    {
      out := {};
      var todo := some;
      while todo != {}
        invariant todo <= some
        invariant out == set e | e in some - todo && L.Edited(disk, e) :: e.path
      {
        var e :| e in todo;
        assert some - (todo - {e}) == some - todo + {e};
        todo := todo - {e};
        if L.Edited(disk, e) {
          out := out + {e.path};
        }
      }
      assert some - {} == some;
    }

    /** One archive extracted and recorded. */
    method Install(env: L.Env, etc: set<L.FileEntry>, j: L.Job, kept: set<Path>)
      returns (ok: bool, now: set<Path>, found: seq<Provide<Path>>)
      requires disk.Valid()
      modifies this
      ensures var x := Extraction.Extract(old(disk), j.members, L.Skip(etc, old(disk), j.members), env.keep);
        && (ok <==> x.Some? && L.Writable(x.value.manifest, L.Scan(env, x.value.disk, x.value.manifest)))
        && (ok ==>
              && Now() == L.Recording(env, old(Now()), j, x.value)
              && now == kept + L.PathSet(x.value.manifest)
              && found == L.Scan(env, x.value.disk, x.value.manifest))
      ensures ok ==> disk.Valid()
    {
      now, found := kept, [];
      var mine := set e | e in etc && (exists m <- j.members :: m.path == e.path);
      var skip := Modified(mine);
      assert skip == L.Skip(etc, disk, j.members);
      var manifest: seq<L.FileEntry>;
      ok, manifest := Extract(j.members, skip, env.keep);
      if !ok {
        return;
      }
      found := ScanOf(env, manifest);
      if !L.Writable(manifest, found) {
        return false, now, found;
      }
      now := kept + L.PathSet(manifest);
      installed := installed[j.key := L.Installed(j.version, j.depends, manifest, j.hash, j.users, j.flags)];
      provided := provided[j.key := found];
    }

    method InstallAll(env: L.Env, etc: set<L.FileEntry>, jobs: seq<L.Job>)
      returns (ok: bool, kept: set<Path>, carried: seq<seq<Provide<Path>>>)
      requires disk.Valid()
      modifies this
      ensures var r := L.ApplyJobs(env, etc, old(Now()), jobs, {});
        && (ok <==> r.Some?)
        && (ok ==> r == Some(L.Pass(Now(), kept, carried)))
    {
      kept, carried := {}, [];
      ghost var whole := L.ApplyJobs(env, etc, Now(), jobs, {});
      assert jobs[0..] == jobs;
      CarryNothing(whole);
      for i := 0 to |jobs|
        invariant disk.Valid()
        invariant whole == Carry(carried, L.ApplyJobs(env, etc, Now(), jobs[i..], kept))
      {
        assert jobs[i..][0] == jobs[i] && jobs[i..][1..] == jobs[i + 1..];
        var found: seq<Provide<Path>>;
        ok, kept, found := Install(env, etc, jobs[i], kept);
        if !ok {
          return;
        }
        CarryOnto(carried, found, L.ApplyJobs(env, etc, Now(), jobs[i + 1..], kept));
        carried := carried + [found];
      }
      assert jobs[|jobs|..] == [] && carried + [] == carried;
      ok := true;
    }

    /** What a version going out leaves behind that something still names. */
    method PreserveOf(rec: Option<L.Installed>, before: map<Path, string>, now: seq<Provide<Path>>, kept: set<Path>)
      returns (m: seq<L.FileEntry>)
      ensures m == L.Preserve(rec, before, now, kept)
    {
      m := [];
      if rec.Some? {
        var manifest := rec.value.manifest;
        var stay := L.Staying(before, now, kept);
        assert manifest[0..] == manifest;
        for i := 0 to |manifest|
          invariant m + L.Filtered(manifest[i..], stay, kept) == L.Filtered(manifest, stay, kept)
        {
          assert manifest[i..][0] == manifest[i] && manifest[i..][1..] == manifest[i + 1..];
          if L.Preserves(stay, kept, manifest[i]) {
            m := m + [manifest[i]];
          }
        }
      }
    }

    method Note(k: L.Key, m: seq<L.FileEntry>, kept: set<Path>)
      modifies this`preserved
      ensures Now() == L.PreserveOne(old(Now()), k, m, kept)
    {
      var record := if k in preserved then preserved[k] else map[];
      var had := map p | p in record && p !in kept :: record[p];
      var all := had;
      assert m[0..] == m;
      for i := 0 to |m|
        invariant L.Joined(all, m[i..]) == L.Joined(had, m)
      {
        assert m[i..][0] == m[i] && m[i..][1..] == m[i + 1..];
        if m[i].path !in all {
          all := all[m[i].path := m[i]];
        }
      }
      assert had == map p | p in L.PreservedOf(Now(), k) && p !in kept :: L.PreservedOf(Now(), k)[p];
      if |had| != |all| {
        preserved := preserved[k := all];
      }
    }

    method NoteAll(jobs: seq<L.Job>, was: seq<Option<L.Installed>>, before: seq<map<Path, string>>,
                   carried: seq<seq<Provide<Path>>>, kept: set<Path>) returns (now: set<Path>)
      requires |jobs| == |was| == |before| == |carried|
      modifies this`preserved
      ensures L.Stay(Now(), now) == L.PreserveJobs(old(Now()), jobs, was, before, carried, kept)
    {
      now := kept;
      ghost var end := L.PreserveJobs(Now(), jobs, was, before, carried, kept);
      assert jobs[0..] == jobs && was[0..] == was && before[0..] == before && carried[0..] == carried;
      for i := 0 to |jobs|
        invariant L.PreserveJobs(Now(), jobs[i..], was[i..], before[i..], carried[i..], now) == end
      {
        PreserveStep(Now(), jobs[i..], was[i..], before[i..], carried[i..], now);
        assert jobs[i..][1..] == jobs[i + 1..] && was[i..][1..] == was[i + 1..];
        assert before[i..][1..] == before[i + 1..] && carried[i..][1..] == carried[i + 1..];
        var m := PreserveOf(was[i], before[i], carried[i], now);
        Note(jobs[i].key, m, now);
        now := now + L.PathSet(m);
      }
    }

    method WithoutOf(manifest: seq<L.FileEntry>, taken: set<Path>) returns (left: seq<L.FileEntry>)
      ensures left == L.Without(manifest, taken)
    {
      left := [];
      assert manifest[0..] == manifest;
      for i := 0 to |manifest|
        invariant left + L.Without(manifest[i..], taken) == L.Without(manifest, taken)
      {
        assert manifest[i..][0] == manifest[i] && manifest[i..][1..] == manifest[i + 1..];
        if manifest[i].kind.Dir? || manifest[i].path !in taken {
          left := left + [manifest[i]];
        }
      }
    }

    method OwnProvidesOf(ps: seq<Provide<Path>>, own: set<Path>) returns (left: seq<Provide<Path>>)
      ensures left == L.OwnProvides(ps, own)
    {
      left := [];
      var i := 0;
      assert ps[0..] == ps;
      while i < |ps|
        invariant i <= |ps|
        invariant left + L.OwnProvides(ps[i..], own) == L.OwnProvides(ps, own)
      {
        assert ps[i..][0] == ps[i] && ps[i..][1..] == ps[i + 1..];
        left := left + if ps[i].path in own then [ps[i]] else [];
        i := i + 1;
      }
    }

    /** One record stops claiming what was taken from it. */
    method Lose(k: L.Key, taken: set<Path>)
      requires k in installed
      modifies this`installed, this`provided
      ensures !L.Loses(old(installed)[k], taken) ==> Now() == old(Now())
      ensures L.Loses(old(installed)[k], taken) ==>
        Now() == old(Now()).(installed := old(installed)[k := L.Lost(old(installed)[k], taken)],
                             provided := old(provided)[k := L.LostProvides(old(Now()), k, taken)])
    {
      var rec := installed[k];
      var left := WithoutOf(rec.manifest, taken);
      if |left| != |rec.manifest| {
        var ps := OwnProvidesOf(if k in provided then provided[k] else [], L.PathSet(left));
        installed := installed[k := rec.(manifest := left)];
        provided := provided[k := ps];
      }
    }

    /** The records one by one, in whatever order they come. */
    method DispossessBy(j: L.Job)
      modifies this`installed, this`provided
      ensures Now() == L.DispossessOne(old(Now()), j)
    {
      ghost var st := Now();
      var taken := L.Taken(j);
      var todo := installed.Keys - {j.key};
      ghost var all, done: set<L.Key> := todo, {};
      DispossessStart(st, taken);
      while todo != {}
        invariant done !! todo && done + todo == all <= st.installed.Keys
        invariant Now() == L.Dispossessed(st, taken, done)
      {
        var k :| k in todo;
        DispossessNext(st, taken, done, k);
        Lose(k, taken);
        todo, done := todo - {k}, done + {k};
      }
      assert done == all;
    }

    method Dispossess(jobs: seq<L.Job>)
      modifies this`installed, this`provided
      ensures Now() == L.Dispossess(old(Now()), jobs)
    {
      ghost var end := L.Dispossess(Now(), jobs);
      assert jobs[0..] == jobs;
      for i := 0 to |jobs|
        invariant L.Dispossess(Now(), jobs[i..]) == end
      {
        assert jobs[i..][0] == jobs[i] && jobs[i..][1..] == jobs[i + 1..];
        DispossessBy(jobs[i]);
      }
    }

    /** The records and libraries a batch is about to replace. */
    method Before(env: L.Env, jobs: seq<L.Job>) returns (was: seq<Option<L.Installed>>, before: seq<map<Path, string>>)
      ensures was == L.WasOf(Now(), jobs) && before == L.BeforeOf(env, disk, was)
    {
      was, before := [], [];
      for i := 0 to |jobs|
        invariant was == L.WasOf(Now(), jobs)[..i]
        invariant |before| == i && forall k :: 0 <= k < i ==> before[k] == L.Libraries(env, disk, was[k])
      {
        var rec := if jobs[i].key in installed then Some(installed[jobs[i].key]) else None;
        var libs := LibrariesOf(env, rec);
        was, before := was + [rec], before + [libs];
      }
    }

    /** A whole batch. */
    method Apply(env: L.Env, jobs: seq<L.Job>) returns (ok: bool)
      requires disk.Valid()
      modifies this
      ensures ok <==> L.Apply(env, old(Now()), jobs).Some?
      ensures ok ==> Now() == L.Apply(env, old(Now()), jobs).value
    {
      var was, before := Before(env, jobs);
      var etc := EtcOf();
      var kept: set<Path>, carried: seq<seq<Provide<Path>>>;
      ok, kept, carried := InstallAll(env, etc, jobs);
      if !ok {
        return;
      }
      kept := NoteAll(jobs, was, before, carried, kept);
      Dispossess(jobs);
      Prune(was, kept);
    }
  }

  ghost function Carry(carried: seq<seq<Provide<Path>>>, r: Option<L.Pass>): Option<L.Pass> {
    match r
    case None => None
    case Some(p) => Some(p.(carried := carried + p.carried))
  }

  lemma CarryNothing(r: Option<L.Pass>)
    ensures Carry([], r) == r
  {
    if r.Some? { assert [] + r.value.carried == r.value.carried; }
  }

  lemma CarryOnto(carried: seq<seq<Provide<Path>>>, found: seq<Provide<Path>>, r: Option<L.Pass>)
    ensures Carry(carried, Carry([found], r)) == Carry(carried + [found], r)
  {
    if r.Some? { ConcatAssociates(carried, [found], r.value.carried); }
  }

  lemma PreserveStep(st: L.State, jobs: seq<L.Job>, was: seq<Option<L.Installed>>, before: seq<map<Path, string>>,
                     carried: seq<seq<Provide<Path>>>, kept: set<Path>)
    requires |jobs| == |was| == |before| == |carried| && jobs != []
    ensures var m := L.Preserve(was[0], before[0], carried[0], kept);
      L.PreserveJobs(st, jobs, was, before, carried, kept)
      == L.PreserveJobs(L.PreserveOne(st, jobs[0].key, m, kept), jobs[1..], was[1..], before[1..], carried[1..], kept + L.PathSet(m))
  {
  }

  lemma DispossessStart(st: L.State, taken: set<Path>)
    ensures L.Dispossessed(st, taken, {}) == st
  {
    var r := L.Dispossessed(st, taken, {});
    assert r.installed == st.installed && r.provided == st.provided;
  }

  lemma ScanFirst(env: L.Env, d: Disk, manifest: seq<L.FileEntry>, i: nat, more: seq<Provide<Path>>)
    requires i < |manifest|
    requires var (e, c) := (manifest[i], d.Bytes(manifest[i].path));
      more == if e.kind.File? && c.Some? && env.elf(c.value).Some? then
                [Provide(env.elf(c.value).value.soname, env.elf(c.value).value.versioned, e.path)] else []
    ensures L.Scan(env, d, manifest[i..]) == more + L.Scan(env, d, manifest[i + 1..])
  {
    assert manifest[i..][0] == manifest[i] && manifest[i..][1..] == manifest[i + 1..];
  }

  lemma DispossessRecord(st: L.State, taken: set<Path>, done: set<L.Key>, k: L.Key)
    requires done <= st.installed.Keys && k in st.installed && k !in done
    ensures var (a, b) := (L.Dispossessed(st, taken, done).installed, L.Dispossessed(st, taken, done + {k}).installed);
      k in a && a[k] == st.installed[k] && b == if L.Loses(st.installed[k], taken) then a[k := L.Lost(st.installed[k], taken)] else a
  {
    var a, b := L.Dispossessed(st, taken, done).installed, L.Dispossessed(st, taken, done + {k}).installed;
    assert b == if L.Loses(st.installed[k], taken) then a[k := L.Lost(st.installed[k], taken)] else a;
  }

  lemma DispossessProvides(st: L.State, taken: set<Path>, done: set<L.Key>, k: L.Key)
    requires done <= st.installed.Keys && k in st.installed && k !in done
    ensures var (a, b) := (L.Dispossessed(st, taken, done).provided, L.Dispossessed(st, taken, done + {k}).provided);
      && (k in a <==> k in st.provided) && (k in a ==> a[k] == st.provided[k])
      && b == if L.Loses(st.installed[k], taken) then a[k := L.LostProvides(st, k, taken)] else a
  {
    var a, b := L.Dispossessed(st, taken, done).provided, L.Dispossessed(st, taken, done + {k}).provided;
    var c := if L.Loses(st.installed[k], taken) then a[k := L.LostProvides(st, k, taken)] else a;
    forall l ensures (l in b <==> l in c) && (l in b ==> b[l] == c[l]) {
      ProvidedAt(st, taken, done, l);
      ProvidedAt(st, taken, done + {k}, l);
    }
    assert b == c;
  }

  lemma ProvidedAt(st: L.State, taken: set<Path>, done: set<L.Key>, l: L.Key)
    requires done <= st.installed.Keys
    ensures var (a, loses) := (L.Dispossessed(st, taken, done).provided, l in done && L.Loses(st.installed[l], taken));
      && (l in a <==> loses || l in st.provided)
      && (l in a ==> a[l] == if loses then L.LostProvides(st, l, taken) else st.provided[l])
  {
  }

  lemma DispossessNext(st: L.State, taken: set<Path>, done: set<L.Key>, k: L.Key)
    requires done <= st.installed.Keys && k in st.installed && k !in done
    ensures var (a, b) := (L.Dispossessed(st, taken, done), L.Dispossessed(st, taken, done + {k}));
      && k in a.installed && a.installed[k] == st.installed[k] && L.ProvidesOf(a, k) == L.ProvidesOf(st, k)
      && b == if !L.Loses(st.installed[k], taken) then a
              else a.(installed := a.installed[k := L.Lost(st.installed[k], taken)],
                      provided := a.provided[k := L.LostProvides(st, k, taken)])
  {
    DispossessRecord(st, taken, done, k);
    DispossessProvides(st, taken, done, k);
  }

  /** One more record of those that stay, and the paths it owns. */
  lemma OwnedOne(st: L.State, replacing: set<L.Key>, todo: set<L.Key>, k: L.Key, mine: set<Path>)
    requires k in todo && todo <= st.installed.Keys - replacing
    requires mine == set e | e in st.installed[k].manifest && !e.kind.Dir? :: e.path
    ensures forall p :: p in mine ==> L.Claims(st.installed[k], p)
    ensures L.OwnedPaths(st, replacing + (todo - {k})) == L.OwnedPaths(st, replacing + todo) + mine
  {
  }

  function Firsts(at: seq<(Path, string)>): seq<Path> {
    if at == [] then [] else [at[0].0] + Firsts(at[1..])
  }

  lemma {:induction false} FirstsSnoc(at: seq<(Path, string)>, x: (Path, string))
    ensures Firsts(at + [x]) == Firsts(at) + [x.0]
  {
    if at == [] {
      assert at + [x] == [x] && [x][1..] == [];
    } else {
      assert (at + [x])[1..] == at[1..] + [x];
      FirstsSnoc(at[1..], x);
    }
  }

  lemma {:induction false} FirstsAppend(a: seq<(Path, string)>, b: seq<(Path, string)>)
    ensures Firsts(a + b) == Firsts(a) + Firsts(b)
  {
    if a == [] {
      assert a + b == b;
    } else {
      assert (a + b)[1..] == a[1..] + b;
      FirstsAppend(a[1..], b);
    }
  }

  ghost function Elements(s: seq<Path>): set<Path> {
    set p | p in s
  }

  lemma ElementsCons(p: Path, rest: seq<Path>, all: seq<Path>)
    requires all == [p] + rest
    ensures Elements(all) == {p} + Elements(rest)
  {
  }

  lemma ConcatAssociates<T>(a: seq<T>, b: seq<T>, c: seq<T>)
    ensures a + b + c == a + (b + c)
  {
  }

  lemma {:induction false} ClashingSplit(owned: set<Path>, a: seq<Path>, b: seq<Path>)
    ensures L.Clashing(owned, a + b) == L.Clashing(owned, a) + L.Clashing(owned + Elements(a), b)
    decreases |a|
  {
    if a == [] {
      assert a + b == b && owned + Elements(a) == owned;
    } else {
      assert (a + b)[1..] == a[1..] + b;
      if a[0] in owned {
        assert owned + Elements(a[1..]) == owned + Elements(a);
        ClashingSplit(owned, a[1..], b);
      } else {
        assert owned + {a[0]} + Elements(a[1..]) == owned + Elements(a);
        ClashingSplit(owned + {a[0]}, a[1..], b);
      }
    }
  }

  lemma FirstsSize(at: seq<(Path, string)>)
    ensures Firsts(at) == [] <==> at == []
  {
  }

  lemma ClashingStep(owned: set<Path>, p: Path, rest: seq<Path>, all: seq<Path>)
    requires all == [p] + rest
    ensures L.Clashing(owned, all) == if p in owned then [p] + L.Clashing(owned, rest) else L.Clashing(owned + {p}, rest)
  {
    assert all[1..] == rest;
  }

  lemma {:induction false} UnmetByNone(st: L.State, jobs: seq<L.Job>, j: L.Job, ds: seq<Dep>)
    ensures L.UnmetBy(st, jobs, j, ds) == [] <==> forall d :: d in ds ==> !L.Unmet(st, jobs, j, d)
  {
    if ds != [] { UnmetByNone(st, jobs, j, ds[1..]); }
  }

  lemma {:induction false} UnmetAllNone(st: L.State, jobs: seq<L.Job>, some: seq<L.Job>)
    ensures L.UnmetAll(st, jobs, some) == [] <==> forall j, d :: j in some && d in j.depends ==> !L.Unmet(st, jobs, j, d)
  {
    if some != [] {
      UnmetByNone(st, jobs, some[0], some[0].depends);
      UnmetAllNone(st, jobs, some[1..]);
    }
  }

  /** Nothing found is the batch accepted. */
  lemma AcceptsChecks(st: L.State, jobs: seq<L.Job>)
    ensures L.Accepts(st, jobs) <==>
      L.Clashing(L.OwnedPaths(st, L.JobKeys(jobs)), L.AllLeafPaths(jobs)) == [] && L.UnmetAll(st, jobs, jobs) == []
  {
    var replacing, p := L.JobKeys(jobs), L.AllLeafPaths(jobs);
    ClashingNone(L.OwnedPaths(st, replacing), p);
    UnmetAllNone(st, jobs, jobs);
    assert forall x :: x in L.OwnedPaths(st, replacing) <==> L.Owned(st, replacing, x);
    assert Distinct(p) <==> forall i, k :: 0 <= i < k < |p| ==> p[i] != p[k];
  }

  /** A manifest put before what is extracted after it. */
  ghost function Onto(manifest: seq<L.FileEntry>, x: Option<Extracted>): Option<Extracted> {
    match x
    case None => None
    case Some(y) => Some(Extracted(y.disk, manifest + y.manifest))
  }

  lemma OntoNothing(x: Option<Extracted>)
    ensures Onto([], x) == x
  {
    if x.Some? { assert [] + x.value.manifest == x.value.manifest; }
  }

  lemma OntoOnto(a: seq<L.FileEntry>, b: seq<L.FileEntry>, x: Option<Extracted>)
    ensures Onto(a, Onto(b, x)) == Onto(a + b, x)
  {
    if x.Some? { assert a + (b + x.value.manifest) == a + b + x.value.manifest; }
  }

  lemma StepsInTwo(d: Disk, m: Member, skip: set<Path>)
    requires m.path != []
    ensures var (dirs, rest) := (Mkdirs(Missing(d, Parent(m.path))), [Open(Parent(m.path)), Clear(Temp(m.path))] + Making(m, skip) + Placing(m, skip));
      var r := Run(d, dirs);
      && Run(d, Steps(d, m, skip)) == (if r.None? then None else Run(r.value, rest))
      && (r.Some? && !r.value.IsDir(Parent(m.path)) ==> Run(d, Steps(d, m, skip)).None?)
  {
    var dirs, rest := Mkdirs(Missing(d, Parent(m.path))), [Open(Parent(m.path)), Clear(Temp(m.path))] + Making(m, skip) + Placing(m, skip);
    assert Steps(d, m, skip) == dirs + rest;
    RunAppend(d, dirs, rest);
  }

  /** One component further: it is there, and so is all above it, or it has to be made. */
  lemma MkdirNext(d: Disk, now: Disk, parent: Path, k: nat)
    requires d.Valid() && k < |parent|
    requires Run(d, Mkdirs(Missing(d, parent[..k]))) == Some(now)
    ensures var (up, walked) := (parent[..k], parent[..k + 1]);
      if now.IsDir(walked) then Missing(d, walked) == Missing(d, up) == []
      else
        && DirEntries(Missing(d, walked)) == DirEntries(Missing(d, up)) + [Entry(0x1ED, Kind.Dir, walked)]
        && Run(d, Mkdirs(Missing(d, walked))) == Do(now, Mkdir(walked))
  {
    var up, walked := parent[..k], parent[..k + 1];
    assert Parent(walked) == up;
    RunMkdirsBelow(d, up, walked);
    if now.IsDir(walked) {
      DirAbove(d, walked);
    } else {
      MkdirsAppend(Missing(d, up), walked);
      RunAppend(d, Mkdirs(Missing(d, up)), [Mkdir(walked)]);
      RunOne(now, Mkdir(walked));
    }
  }

  /** Making directories makes nothing longer than the one asked for. */
  lemma {:induction false} RunMkdirsBelow(d: Disk, parent: Path, p: Path)
    requires |p| > |parent|
    ensures var r := Run(d, Mkdirs(Missing(d, parent))); r.Some? ==> (r.value.IsDir(p) <==> d.IsDir(p))
    decreases |parent|
  {
    if parent != [] && !d.IsDir(parent) {
      var up := Missing(d, Parent(parent));
      MkdirsAppend(up, parent);
      RunAppend(d, Mkdirs(up), [Mkdir(parent)]);
      RunMkdirsBelow(d, Parent(parent), p);
      if Run(d, Mkdirs(up)).Some? { RunOne(Run(d, Mkdirs(up)).value, Mkdir(parent)); }
    }
  }

  lemma DirAbove(d: Disk, p: Path)
    requires d.Valid() && d.IsDir(p)
    ensures d.IsDir(Parent(p))
  {
  }

  /** A directory that cannot be made stops everything below it. */
  lemma {:induction false} StillMissing(d: Disk, parent: Path, k: nat)
    requires d.Valid() && k <= |parent| && !d.IsDir(parent[..k])
    requires Run(d, Mkdirs(Missing(d, parent[..k]))).None?
    ensures Run(d, Mkdirs(Missing(d, parent))).None?
    decreases |parent| - k
  {
    if k == |parent| {
      assert parent[..k] == parent;
    } else {
      var next := parent[..k + 1];
      assert Parent(next) == parent[..k];
      if d.IsDir(next) { DirAbove(d, next); }
      MkdirsAppend(Missing(d, parent[..k]), next);
      RunAppend(d, Mkdirs(Missing(d, parent[..k])), [Mkdir(next)]);
      StillMissing(d, parent, k + 1);
    }
  }
}
