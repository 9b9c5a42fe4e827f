/** What an extraction notes of each member: its place, what it is and its mode, bit by bit.
    `apply` and `parent_fd` in archive.rs. */
module Noting {
  import opened Paths
  import opened Disk
  import opened Records
  import opened Extraction

  /** The permission bits and the sticky bit are kept; the set-user and set-group bits where the
      path is one that may have them, and nowhere else; what is above them never is. */
  predicate ModeOf(noted: nat, mode: nat, allowed: bool) {
    && noted % 0x400 == mode % 0x400
    && noted / 0x400 % 4 == (if allowed then mode / 0x400 % 4 else 0)
    && noted / 0x1000 == 0
  }

  /** The entry a member is noted as. */
  ghost predicate NotedAs(e: Entry<Content, Path>, m: Member, keep: set<Path>) {
    && e.path == m.path && ModeOf(e.mode, m.mode, m.path in keep)
    && match m.what
       case File(chunks) => e.kind == Kind.File(Flat(chunks))
       case Dir => e.kind == Kind.Dir
       case Link(t) => e.kind == Kind.Link(t)
       case Hard(t) => e.kind == Kind.Hard(t)
  }

  /** A directory made on the way to a member can be written by its owner and read by all. */
  predicate OnTheWay(e: Entry<Content, Path>, members: seq<Member>) {
    e.kind == Kind.Dir && e.mode == 7 * 64 + 5 * 8 + 5 && exists m <- members :: Proper(e.path, m.path)
  }

  predicate Proper(p: Path, q: Path) {
    |p| < |q| && p == q[..|p|]
  }

  lemma MaskedIs(mode: nat, allowed: bool)
    ensures ModeOf(Masked(mode, allowed), mode, allowed)
  {
    if allowed {
      LowBits(mode);
    }
  }

  lemma LowBits(mode: nat)
    ensures ModeOf(mode % 0x1000, mode, true)
  {
    var top, mid, low := mode / 0x1000, mode / 0x400 % 4, mode % 0x400;
    assert mode == 0x1000 * top + 0x400 * mid + low;
  }

  lemma {:induction false} MissingAbove(d: Disk, parent: Path)
    ensures forall p :: p in Missing(d, parent) ==> |p| <= |parent| && p == parent[..|p|]
    decreases |parent|
  {
    if parent != [] && !d.IsDir(parent) {
      MissingAbove(d, Parent(parent));
      assert parent[..|parent|] == parent;
      forall p | p in Missing(d, Parent(parent)) ensures p == parent[..|p|] {
        assert p == Parent(parent)[..|p|];
      }
    }
  }

  lemma EntriesNote(d: Disk, m: Member, keep: set<Path>)
    requires m.path != []
    ensures NotedAs(Recorded(m, keep), m, keep) && Recorded(m, keep) in Entries(d, m, keep)
    ensures forall e :: e in Entries(d, m, keep) ==> e == Recorded(m, keep) || OnTheWay(e, [m])
  {
    MaskedIs(m.mode, m.path in keep);
    MissingAbove(d, Parent(m.path));
    var dirs := Missing(d, Parent(m.path));
    forall e | e in DirEntries(dirs) ensures OnTheWay(e, [m]) {
      var i :| 0 <= i < |dirs| && e == DirEntries(dirs)[i];
      assert dirs[i] in dirs && m in [m];
      assert Parent(m.path)[..|e.path|] == m.path[..|e.path|];
    }
  }

  /** Every entry of the manifest is a member's or a directory's on the way to one, and every
      member has its entry. */
  lemma {:induction false} MembersNoted(d: Disk, members: seq<Member>, skip: set<Path>, keep: set<Path>)
    requires Extract(d, members, skip, keep).Some?
    ensures var manifest := Extract(d, members, skip, keep).value.manifest;
      && (forall m :: m in members ==> exists e :: e in manifest && NotedAs(e, m, keep))
      && (forall e :: e in manifest ==> OnTheWay(e, members) || exists m :: m in members && NotedAs(e, m, keep))
    decreases |members|
  {
    if members != [] {
      var m, rest := members[0], members[1..];
      var e := Run(d, Steps(d, m, skip)).value;
      var later := Extract(e, rest, skip, keep).value.manifest;
      EntriesNote(d, m, keep);
      MembersNoted(e, rest, skip, keep);
      NotedMore(m, rest, Entries(d, m, keep), later, keep, members);
    }
  }

  lemma NotedMore(m: Member, rest: seq<Member>, mine: seq<Entry<Content, Path>>, later: seq<Entry<Content, Path>>, keep: set<Path>, members: seq<Member>)
    requires members == [m] + rest
    requires NotedAs(Recorded(m, keep), m, keep) && Recorded(m, keep) in mine
    requires forall e :: e in mine ==> e == Recorded(m, keep) || OnTheWay(e, [m])
    requires forall m :: m in rest ==> exists e :: e in later && NotedAs(e, m, keep)
    requires forall e :: e in later ==> OnTheWay(e, rest) || exists m :: m in rest && NotedAs(e, m, keep)
    ensures forall m :: m in members ==> exists e :: e in mine + later && NotedAs(e, m, keep)
    ensures forall e :: e in mine + later ==> OnTheWay(e, members) || exists m :: m in members && NotedAs(e, m, keep)
  {
    forall o | o in members ensures exists e :: e in mine + later && NotedAs(e, o, keep) {
      if o == m {
        assert Recorded(m, keep) in mine + later;
      } else {
        var e :| e in later && NotedAs(e, o, keep);
        assert e in mine + later;
      }
    }
    assert m in members && forall o :: o in rest ==> o in members;
    forall e | e in mine + later ensures OnTheWay(e, members) || exists m :: m in members && NotedAs(e, m, keep) {
      if e in mine {
        assert e != Recorded(m, keep) ==> OnTheWay(e, [m]);
      } else {
        assert e in later;
      }
    }
  }
}
