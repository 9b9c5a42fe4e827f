/** What the tests of a removal, an upgrade and a scan come to, by the disk's nodes and the
    records' entries: `want`, `unlink`, `modified`, `libraries` and `beside` in install.rs. */
module Matching {
  import opened Paths
  import opened Disk
  import opened Records
  import opened Lifecycle
  import opened Bookkeeping

  /** A file stands there and holds these bytes. */
  predicate FileHolds(d: Disk, p: Path, c: Content) {
    p in d.nodes && d.nodes[p].File? && d.nodes[p].ino in d.data && d.data[d.nodes[p].ino] == c
  }

  /** The last of the entries that names the path as a file has these bytes. */
  ghost predicate LastSum(all: seq<FileEntry>, p: Path, c: Content) {
    exists i :: 0 <= i < |all| && all[i].path == p && all[i].kind == Kind.File(c) && !FileAfter(all, p, i + 1)
  }

  predicate FileAfter(all: seq<FileEntry>, p: Path, i: nat) {
    exists l :: i <= l < |all| && all[l].path == p && all[l].kind.File?
  }

  /** The node an entry names is the one it recorded: the same bytes, or the same target. A hard
      link should hold what the file it names should, if the same manifest has one. */
  ghost predicate StillIts(d: Disk, e: FileEntry, all: seq<FileEntry>) {
    match e.kind
    case Dir => false
    case Link(t) => e.path in d.nodes && d.nodes[e.path].Link? && d.nodes[e.path].target == t
    case File(c) => FileHolds(d, e.path, c)
    case Hard(to) => exists c :: LastSum(all, to, c) && FileHolds(d, e.path, c)
  }

  lemma {:induction false} SumsAre(all: seq<FileEntry>, p: Path)
    ensures if p in Sums(all) then LastSum(all, p, Sums(all)[p]) else !FileAfter(all, p, 0)
    decreases |all|
  {
    if all != [] {
      var n := |all| - 1;
      var front, e := all[..n], all[n];
      SumsAre(front, p);
      assert forall l :: 0 <= l < n ==> all[l] == front[l];
      if e.kind.File? && e.path == p {
        assert all[n].kind == Kind.File(e.kind.sum) && !FileAfter(all, p, n + 1);
      } else if p in Sums(front) {
        var c := Sums(front)[p];
        var i :| 0 <= i < n && front[i].path == p && front[i].kind == Kind.File(c) && !FileAfter(front, p, i + 1);
        assert all[i].kind == Kind.File(c) && !FileAfter(all, p, i + 1);
      }
    }
  }

  lemma OneSum(all: seq<FileEntry>, p: Path, a: Content, b: Content)
    requires LastSum(all, p, a) && LastSum(all, p, b)
    ensures a == b
  {
    var i :| 0 <= i < |all| && all[i].path == p && all[i].kind == Kind.File(a) && !FileAfter(all, p, i + 1);
    var l :| 0 <= l < |all| && all[l].path == p && all[l].kind == Kind.File(b) && !FileAfter(all, p, l + 1);
    assert i == l;
  }

  lemma SomeSum(all: seq<FileEntry>, p: Path, c: Content)
    ensures LastSum(all, p, c) ==> FileAfter(all, p, 0)
  {
  }

  /** A removal takes what an entry names exactly while it is still what was recorded. */
  lemma MatchesMeans(d: Disk, e: FileEntry, all: seq<FileEntry>)
    ensures Matches(d, e, Sums(all)) <==> StillIts(d, e, all)
  {
    if e.kind.Hard? {
      var to := e.kind.to;
      SumsAre(all, to);
      if to in Sums(all) {
        forall c | LastSum(all, to, c) ensures c == Sums(all)[to] {
          OneSum(all, to, c, Sums(all)[to]);
        }
      } else {
        forall c ensures !LastSum(all, to, c) {
          SomeSum(all, to, c);
        }
      }
    }
  }

  /** A recorded file was edited when a file with other bytes stands under its name. */
  lemma EditedMeans(d: Disk, e: FileEntry)
    ensures Edited(d, e) <==> e.kind.File? && exists c :: FileHolds(d, e.path, c) && c != e.kind.sum
  {
    if Edited(d, e) {
      assert FileHolds(d, e.path, d.Bytes(e.path).value);
    }
  }

  /** No removal takes these directories. */
  lemma ProtectedMeans(p: Path)
    ensures p in PROTECTED <==>
      || p == []
      || (|p| == 1 && p[0] in {"usr", "etc", "var", "bin", "sbin", "lib", "lib64"})
      || (|p| == 2 && p[0] == "usr" && p[1] in {"bin", "sbin", "lib", "lib64", "local", "share"})
  {
    assert |p| == 1 ==> p == [p[0]];
    assert |p| == 2 ==> p == [p[0], p[1]];
  }

  /** A symlink is kept beside the file it names in its own directory, and one whose target has a
      slash in it beside none. */
  lemma BesideMeans(p: Path, target: string, q: Path)
    requires p != []
    ensures Beside(p, target) == Some(q) <==> |q| == |p| && q[..|q| - 1] == p[..|p| - 1] && q[|q| - 1] == target && '/' !in target
  {
    if |q| == |p| && q[..|q| - 1] == p[..|p| - 1] && q[|q| - 1] == target {
      assert q == q[..|q| - 1] + [q[|q| - 1]];
    }
  }

  // -------------------------------------------------------------------------- libraries

  lemma {:induction false} SonamesAre(ps: seq<Provide<Path>>, p: Path)
    ensures p in Sonames(ps) <==> exists l :: l in ps && l.path == p
    ensures p in Sonames(ps) ==> exists l :: l in ps && l.path == p && l.soname == Sonames(ps)[p]
    decreases |ps|
  {
    if ps != [] {
      var front, last := ps[..|ps| - 1], ps[|ps| - 1];
      SonamesAre(front, p);
      assert forall l :: l in ps <==> l in front || l == last;
    }
  }

  /** The libraries a package had: the paths its record names as files and whose bytes the ELF reader
      takes for a shared library, each with the soname of those. */
  lemma LibrariesMean(env: Env, d: Disk, rec: Installed, p: Path)
    ensures var before := Libraries(env, d, Some(rec));
      && (p in before <==> exists v, so :: LibraryAt(env, d, rec.manifest, Provide(so, v, p)))
      && (p in before ==> exists v :: LibraryAt(env, d, rec.manifest, Provide(before[p], v, p)))
  {
    var ps := Scan(env, d, rec.manifest);
    SonamesAre(ps, p);
    ScanMeans(env, d, rec.manifest);
    if v, so :| LibraryAt(env, d, rec.manifest, Provide(so, v, p)) {
      assert Provide(so, v, p) in ps;
    }
    if p in Sonames(ps) {
      var l :| l in ps && l.path == p && l.soname == Sonames(ps)[p];
      assert l == Provide(l.soname, l.versioned, p);
    }
  }
}
