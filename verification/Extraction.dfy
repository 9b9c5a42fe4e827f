/** Putting one member of an archive on disk: `apply` and `parent_fd` in archive.rs. */
module Extraction {
  import opened Paths
  import opened Disk
  import opened Records

  datatype What =
    | File(chunks: seq<Content>)
    | Dir
    | Link(target: string)
    | Hard(to: Path)

  /** A member as planned: resolved, relative to the root. A file's bytes arrive in chunks,
      one read of the archive each. */
  datatype Member = Member(what: What, mode: nat, path: Path)

  function Flat(chunks: seq<Content>): Content {
    if chunks == [] then [] else chunks[0] + Flat(chunks[1..])
  }

  /** The name a member is made under, beside the one it is renamed to. */
  function Temp(p: Path): Path
    requires p != []
  {
    Parent(p) + ["." + p[|p| - 1] + ".kiry"]
  }

  /** The directories above a member that are not there yet, the outermost first. */
  function Missing(d: Disk, parent: Path): seq<Path>
    decreases |parent|
  {
    if parent == [] || d.IsDir(parent) then []
    else Missing(d, Parent(parent)) + [parent]
  }

  function Mkdirs(dirs: seq<Path>): seq<Step> {
    if dirs == [] then [] else [Mkdir(dirs[0])] + Mkdirs(dirs[1..])
  }

  function Writes(p: Path, chunks: seq<Content>): seq<Step> {
    if chunks == [] then [] else [Write(p, chunks[0])] + Writes(p, chunks[1..])
  }

  /** The calls that make a member under its temporary name. A directory is made in place,
      and a file this root has edited is read for its hash and not written. */
  function Making(m: Member, skip: set<Path>): seq<Step>
    requires m.path != []
  {
    match m.what
    case Dir => [Mkdir(m.path)]
    case File(chunks) => if m.path in skip then [] else [Create(Temp(m.path))] + Writes(Temp(m.path), chunks)
    case Link(t) => [Symlink(Temp(m.path), t)]
    case Hard(t) => [Hardlink(t, Temp(m.path))]
  }

  function Placing(m: Member, skip: set<Path>): seq<Step>
    requires m.path != []
  {
    (if m.what.Dir? || m.path in skip then [] else [Rename(Temp(m.path), m.path)]) + [Clear(Temp(m.path))]
  }

  function Steps(d: Disk, m: Member, skip: set<Path>): seq<Step>
    requires m.path != []
  {
    Mkdirs(Missing(d, Parent(m.path))) + [Open(Parent(m.path)), Clear(Temp(m.path))] + Making(m, skip) + Placing(m, skip)
  }

  /** The special bits come off unless the root's configuration names the path. */
  function Masked(mode: nat, keep: bool): nat {
    if keep then mode % 0x1000 else mode % 0x400
  }

  function Recorded(m: Member, keep: set<Path>): Entry<Content, Path> {
    Entry(Masked(m.mode, m.path in keep),
          match m.what
          case File(chunks) => Kind.File(Flat(chunks))
          case Dir => Kind.Dir
          case Link(t) => Kind.Link(t)
          case Hard(t) => Kind.Hard(t),
          m.path)
  }

  function DirEntries(dirs: seq<Path>): seq<Entry<Content, Path>> {
    seq(|dirs|, i requires 0 <= i < |dirs| => Entry(0x1ED, Kind.Dir, dirs[i]))
  }

  /** What one member adds to the manifest: the directories it made on the way, then itself. */
  function Entries(d: Disk, m: Member, keep: set<Path>): seq<Entry<Content, Path>> {
    DirEntries(Missing(d, Parent(m.path))) + [Recorded(m, keep)]
  }

  datatype Extracted = Extracted(disk: Disk, manifest: seq<Entry<Content, Path>>)

  function Extract(d: Disk, members: seq<Member>, skip: set<Path>, keep: set<Path>): Option<Extracted>
    decreases |members|
  {
    if members == [] then Some(Extracted(d, []))
    else if members[0].path == [] then None
    else
      match Run(d, Steps(d, members[0], skip))
      case None => None
      case Some(e) =>
        match Extract(e, members[1..], skip, keep)
        case None => None
        case Some(x) => Some(Extracted(x.disk, Entries(d, members[0], keep) + x.manifest))
  }
}
