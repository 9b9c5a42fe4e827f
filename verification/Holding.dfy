/** A batch records just what the database's text formats can hold: `apply` in install.rs over the
    writers of db.rs. */
module Holding {
  import opened Paths
  import opened Disk
  import opened Records
  import opened Lifecycle
  import Formats

  /** How an entry is written, its path as text and for its bytes their hash. */
  function Written(e: FileEntry, sha: Content -> string): TextEntry {
    Entry(e.mode,
          match e.kind
          case File(c) => Kind.File(sha(c))
          case Dir => Kind.Dir
          case Link(t) => Kind.Link(t)
          case Hard(to) => Kind.Hard(Join(to, '/')),
          Join(e.path, '/'))
  }

  function AllWritten(manifest: seq<FileEntry>, sha: Content -> string): seq<TextEntry> {
    if manifest == [] then [] else [Written(manifest[0], sha)] + AllWritten(manifest[1..], sha)
  }

  function ProvidesWritten(ps: seq<Provide<Path>>): seq<Provide<string>> {
    if ps == [] then []
    else [Provide(ps[0].soname, ps[0].versioned, Join(ps[0].path, '/'))] + ProvidesWritten(ps[1..])
  }

  predicate Inside(p: Path) {
    p != [] && ProperPath(p)
  }

  /** Entries as the walk makes them. */
  predicate AllInside(manifest: seq<FileEntry>) {
    forall e <- manifest :: Inside(e.path) && (e.kind.Hard? ==> Inside(e.kind.to))
  }

  lemma {:induction false} InJoin(p: seq<string>, c: char)
    requires c != '/'
    ensures c in Join(p, '/') <==> exists s :: s in p && c in s
    decreases |p|
  {
    if |p| > 1 {
      InJoin(p[1..], c);
      assert forall s :: s in p <==> s == p[0] || s in p[1..];
    } else if |p| == 1 {
      assert p == [p[0]];
    }
  }

  lemma JoinStarts(p: Path)
    requires Inside(p)
    ensures Join(p, '/') != [] && Join(p, '/')[0] != '/'
  {
    assert Proper(p[0]) && p[0][0] in p[0];
  }

  /** An entry can be recorded exactly when its line can be written. */
  lemma EntryHeld(e: FileEntry, sha: Content -> string)
    requires Inside(e.path) && (e.kind.Hard? ==> Inside(e.kind.to))
    ensures Recordable(e) <==> Formats.Formattable(Written(e, sha))
  {
    JoinStarts(e.path);
    InJoin(e.path, '\n');
    if e.kind.Hard? {
      InJoin(e.kind.to, ' ');
      InJoin(e.kind.to, '\n');
    }
  }

  lemma {:induction false} ManifestHeld(manifest: seq<FileEntry>, sha: Content -> string)
    requires AllInside(manifest)
    ensures (forall e <- manifest :: Recordable(e)) <==> Formats.FormatManifest(AllWritten(manifest, sha)).Ok?
    decreases |manifest|
  {
    if manifest != [] {
      var e, rest, all := manifest[0], manifest[1..], AllWritten(manifest, sha);
      assert e in manifest && forall o :: o in manifest <==> o == e || o in rest;
      EntryHeld(e, sha);
      ManifestHeld(rest, sha);
      assert all[0] == Written(e, sha) && all[1..] == AllWritten(rest, sha);
    }
  }

  lemma {:induction false} ProvidesHeld(ps: seq<Provide<Path>>)
    requires forall p :: p in ps ==> Inside(p.path) && forall c :: c in p.path ==> '\n' !in c
    ensures (forall p <- ps :: Providable(p)) <==> Formats.FormatProvides(ProvidesWritten(ps)).Ok?
    decreases |ps|
  {
    if ps != [] {
      var p, rest, all := ps[0], ps[1..], ProvidesWritten(ps);
      assert p in ps && forall o :: o in ps <==> o == p || o in rest;
      JoinStarts(p.path);
      InJoin(p.path, '\n');
      ProvidesHeld(rest);
      assert all[0] == Provide(p.soname, p.versioned, Join(p.path, '/')) && all[1..] == ProvidesWritten(rest);
      assert Providable(p) <==> Formats.Providable(all[0]);
    }
  }

  /** A package's record goes into the database exactly when its manifest and its provides can be
      written as text. */
  lemma WritableMeans(manifest: seq<FileEntry>, ps: seq<Provide<Path>>, sha: Content -> string)
    requires AllInside(manifest) && forall p :: p in ps ==> Names(manifest, p.path)
    ensures Writable(manifest, ps) <==>
      Formats.FormatManifest(AllWritten(manifest, sha)).Ok? && Formats.FormatProvides(ProvidesWritten(ps)).Ok?
  {
    ManifestHeld(manifest, sha);
    if forall e <- manifest :: Recordable(e) {
      forall p | p in ps ensures Inside(p.path) && forall c :: c in p.path ==> '\n' !in c {
        var e :| e in manifest && e.path == p.path;
        assert Recordable(e);
      }
      ProvidesHeld(ps);
    }
  }
}
