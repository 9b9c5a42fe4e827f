/** What becomes of one header of an archive, spelled out: `walk` in archive.rs. */
module Taking {
  import opened Paths
  import opened Resolution
  import opened Walk
  import Disk
  import E = Extraction

  /** A path without the slashes at its end. */
  predicate TrimsTo(p: string, s: string) {
    s <= p && (s == "" || s[|s| - 1] != '/') && forall i :: |s| <= i < |p| ==> p[i] == '/'
  }

  lemma {:induction false} Trimmed(p: string)
    ensures TrimsTo(p, TrimSlashes(p))
  {
    if p != "" && p[|p| - 1] == '/' {
      var front := p[..|p| - 1];
      Trimmed(front);
      assert TrimSlashes(p) == TrimSlashes(front);
      assert front <= p;
    }
  }

  lemma TrimmedOnce(p: string, s: string, t: string)
    requires TrimsTo(p, s) && TrimsTo(p, t)
    ensures s == t
  {
    assert s != "" ==> s[|s| - 1] == p[|s| - 1];
    assert t != "" ==> t[|t| - 1] == p[|t| - 1];
    assert s == p[..|s|] && t == p[..|t|];
  }

  /** A path a member can have, and not the root of the tree. */
  predicate Usable(s: string) {
    s != "" && s != "." && s[0] != '/' && '\n' !in s
  }

  predicate RootItself(s: string) {
    s == "" || s == "."
  }

  /** The symlinks of a disk. */
  ghost predicate DiskLinks(d: Disk.Disk, links: map<Path, string>) {
    forall p :: (p in links <==> p in d.nodes && d.nodes[p].Link?) && (p in links ==> d.nodes[p] == Disk.Link(links[p]))
  }

  ghost predicate LandsAt(links: Links, s: string, follow: bool, p: Path) {
    exists h :: Resolve(links, s, follow) == Landed(p, h)
  }

  /** Nothing is there, or a directory exactly if one is to come. */
  ghost predicate RoomFor(d: Disk.Disk, p: Path, dir: bool) {
    if p == [] then dir else p in d.nodes ==> (d.nodes[p].Dir? <==> dir)
  }

  /** A directory lands where its path is followed to, and everything else under its own name,
      even if that is a symlink; a hard link names what its target lands on, unfollowed. */
  ghost predicate Becomes(d: Disk.Disk, links: Links, raw: Raw, s: string, m: E.Member) {
    && Usable(s) && !raw.xattr && m.mode == raw.mode
    && LandsAt(links, s, raw.kind.Directory?, m.path) && RoomFor(d, m.path, raw.kind.Directory?)
    && match raw.kind
       case Regular => m.what == E.File(raw.chunks)
       case Directory => m.what.Dir?
       case Symlink => raw.link.Some? && m.what == E.What.Link(raw.link.value)
       case HardLink =>
         raw.link.Some? && m.what.Hard? && exists t :: TrimsTo(raw.link.value, t) && Usable(t) && LandsAt(links, t, false, m.what.to)
       case Meta => false
       case Other => false
  }

  lemma TidyIs(p: string, s: string)
    requires TrimsTo(p, s)
    ensures Usable(s) ==> Tidy(p) == Ok(Some(s))
    ensures RootItself(s) ==> Tidy(p) == Ok(None)
    ensures !Usable(s) && !RootItself(s) ==> Tidy(p).Err?
  {
    Trimmed(p);
    TrimmedOnce(p, s, TrimSlashes(p));
  }

  lemma LandsOk(links: Links, s: string, follow: bool, p: Path)
    ensures LandsAt(links, s, follow, p) <==> ResolveOr(links, s, follow) == Ok(p)
  {
    var r := Resolve(links, s, follow);
    if r.Landed? {
      assert r == Landed(r.path, r.hops);
    }
  }

  /** What the making of a header comes to, kind by kind. */
  lemma MadeOf(links: Links, raw: Raw, what: E.What)
    ensures Walk.Making(links, raw) == Ok(Some(what)) <==>
      match raw.kind
      case Regular => what == E.File(raw.chunks)
      case Directory => what.Dir?
      case Symlink => raw.link.Some? && what == E.What.Link(raw.link.value)
      case HardLink =>
        raw.link.Some? && what.Hard? && exists t :: TrimsTo(raw.link.value, t) && Usable(t) && LandsAt(links, t, false, what.to)
      case Meta => false
      case Other => false
  {
    if raw.kind.HardLink? && raw.link.Some? {
      var u := raw.link.value;
      Trimmed(u);
      TidyIs(u, TrimSlashes(u));
      forall t | TrimsTo(u, t) ensures t == TrimSlashes(u) {
        TrimmedOnce(u, t, TrimSlashes(u));
      }
      if what.Hard? {
        LandsOk(links, TrimSlashes(u), false, what.to);
      }
    }
  }

  lemma LinksAre(d: Disk.Disk, disk: map<Path, string>)
    requires DiskLinks(d, disk)
    ensures LinksOn(d) == disk
  {
    assert LinksOn(d).Keys == disk.Keys;
  }

  /** Exactly which member a header is taken as. */
  lemma TakenAs(d: Disk.Disk, made: map<Path, string>, disk: map<Path, string>, raw: Raw, s: string, m: E.Member)
    requires DiskLinks(d, disk) && TrimsTo(raw.path, s)
    ensures Take(d, made, raw) == Ok(Some(m)) <==> Becomes(d, Links(made, disk), raw, s, m)
  {
    var links := Links(made, disk);
    LinksAre(d, disk);
    TidyIs(raw.path, s);
    MadeOf(links, raw, m.what);
    LandsOk(links, s, raw.kind.Directory?, m.path);
    MadeKind(links, raw);
    RoomIs(d, m.path, m.what);
  }

  lemma RoomIs(d: Disk.Disk, p: Path, what: E.What)
    ensures RoomFor(d, p, what.Dir?) <==> !Trades(d, p, what)
  {
  }

  /** Only a directory header makes a directory. */
  lemma MadeKind(links: Links, raw: Raw)
    ensures var r := Walk.Making(links, raw); r.Ok? && r.value.Some? ==> (r.value.value.Dir? <==> raw.kind.Directory?)
  {
  }

  /** Which headers are passed over: the root's own, and those that only describe others. */
  lemma PassedOver(d: Disk.Disk, made: map<Path, string>, raw: Raw, s: string)
    requires TrimsTo(raw.path, s)
    ensures Take(d, made, raw) == Ok(None) <==>
      || (RootItself(s) && raw.kind.Directory?)
      || (Usable(s) && !raw.xattr && raw.kind.Meta?)
  {
    TidyIs(raw.path, s);
  }

  /** A directory header on a root where its name is a symlink to a directory: it is taken, and
      lands there. */
  lemma DirectoryThrough(d: Disk.Disk, made: map<Path, string>, disk: map<Path, string>, raw: Raw, s: string, p: Path, h: nat)
    requires DiskLinks(d, disk) && TrimsTo(raw.path, s) && Usable(s) && raw.kind.Directory? && !raw.xattr
    requires Resolve(Links(made, disk), s, true) == Landed(p, h) && d.IsDir(p)
    ensures Take(d, made, raw) == Ok(Some(E.Member(E.What.Dir, raw.mode, p)))
  {
    TakenAs(d, made, disk, raw, s, E.Member(E.What.Dir, raw.mode, p));
  }

  // --------------------------------------------------------------------- a whole archive

  predicate Passed(raw: Raw, s: string) {
    (RootItself(s) && raw.kind.Directory?) || (Usable(s) && !raw.xattr && raw.kind.Meta?)
  }

  /** One header after another: each is passed over or becomes the next member, by the links the
      archive has made so far and then the disk's; a symlink taken is one more of the former. */
  ghost predicate Walks(d: Disk.Disk, made: map<Path, string>, disk: map<Path, string>, raws: seq<Raw>, ms: seq<E.Member>)
    decreases |raws|
  {
    if raws == [] then ms == []
    else
      exists s :: TrimsTo(raws[0].path, s) &&
        if Passed(raws[0], s) then Walks(d, made, disk, raws[1..], ms)
        else
          && ms != [] && Becomes(d, Links(made, disk), raws[0], s, ms[0])
          && Walks(d, if ms[0].what.Link? then made[ms[0].path := ms[0].what.target] else made, disk, raws[1..], ms[1..])
  }

  lemma WalksOne(d: Disk.Disk, made: map<Path, string>, disk: map<Path, string>, raws: seq<Raw>, ms: seq<E.Member>, s: string)
    requires DiskLinks(d, disk) && raws != [] && TrimsTo(raws[0].path, s)
    ensures Walks(d, made, disk, raws, ms) <==>
      var r := Take(d, made, raws[0]);
      && r.Ok?
      && if r.value.None? then Walks(d, made, disk, raws[1..], ms)
         else ms != [] && ms[0] == r.value.value && Walks(d, Noting(made, ms[0]), disk, raws[1..], ms[1..])
  {
    var raw := raws[0];
    forall t | TrimsTo(raw.path, t) ensures t == s {
      TrimmedOnce(raw.path, s, t);
    }
    PassedOver(d, made, raw, s);
    if ms != [] {
      TakenAs(d, made, disk, raw, s, ms[0]);
    }
  }

  lemma PlanOne(d: Disk.Disk, made: map<Path, string>, raws: seq<Raw>, ended: bool, ms: seq<E.Member>)
    requires raws != []
    ensures Plan(d, made, raws, ended) == Ok(ms) <==>
      var r := Take(d, made, raws[0]);
      && r.Ok?
      && if r.value.None? then Plan(d, made, raws[1..], ended) == Ok(ms)
         else ms != [] && ms[0] == r.value.value && Plan(d, Noting(made, ms[0]), raws[1..], ended) == Ok(ms[1..])
  {
    if ms != [] {
      assert ms == [ms[0]] + ms[1..];
    }
  }

  /** The plan of an archive is exactly what its headers become in turn, if it is not cut off. */
  lemma {:induction false} PlanMeans(d: Disk.Disk, made: map<Path, string>, disk: map<Path, string>, raws: seq<Raw>, ended: bool, ms: seq<E.Member>)
    requires DiskLinks(d, disk)
    ensures Plan(d, made, raws, ended) == Ok(ms) <==> ended && Walks(d, made, disk, raws, ms)
    decreases |raws|
  {
    if raws != [] {
      var s := TrimSlashes(raws[0].path);
      Trimmed(raws[0].path);
      WalksOne(d, made, disk, raws, ms, s);
      PlanOne(d, made, raws, ended, ms);
      PlanMeans(d, made, disk, raws[1..], ended, ms);
      if ms != [] {
        PlanMeans(d, Noting(made, ms[0]), disk, raws[1..], ended, ms[1..]);
      }
    }
  }
}
