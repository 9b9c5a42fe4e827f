/** What the calls behind one member come to: the disk they leave, in one step. */
module ExtractionLaws {
  import opened Paths
  import opened Disk
  import opened Records
  import opened Extraction

  /** The disk with the directories above a member there. */
  function Laid(d: Disk, parent: Path): Disk
    decreases |parent|
  {
    if parent == [] || d.IsDir(parent) then d
    else var e := Laid(d, Parent(parent)); e.(nodes := e.nodes[parent := Node.Dir])
  }

  function Cleared(d: Disk, p: Path): Disk {
    if d.IsLeaf(p) then d.(nodes := d.nodes - {p}) else d
  }

  /** The disk once a member's own node is in place. */
  function Placed(base: Disk, m: Member, skip: set<Path>): Disk {
    if m.what.Dir? then
      if m.path in base.nodes then base else base.(nodes := base.nodes[m.path := Node.Dir])
    else if m.path in skip then base
    else
      match m.what
      case File(chunks) =>
        Disk(base.nodes[m.path := Node.File(base.next)], base.data[base.next := Flat(chunks)], base.next + 1)
      case Link(t) => base.(nodes := base.nodes[m.path := Node.Link(t)])
      case Hard(t) => if t in base.nodes then base.(nodes := base.nodes[m.path := base.nodes[t]]) else base
      case Dir => base
  }

  /** The disk the second half of a member starts from. */
  function Base(d: Disk, m: Member): Disk
    requires m.path != []
  {
    Cleared(Laid(d, Parent(m.path)), Temp(m.path))
  }

  /** What a member leaves behind once it is whole: the directories above it, the new node
      under its own name, and nothing but a directory under the temporary one. */
  function Put(d: Disk, m: Member, skip: set<Path>): Disk
    requires m.path != []
  {
    Placed(Base(d, m), m, skip)
  }

  lemma {:induction false} MkdirsAppend(a: seq<Path>, p: Path)
    ensures Mkdirs(a + [p]) == Mkdirs(a) + [Mkdir(p)]
  {
    if a == [] {
      assert a + [p] == [p];
    } else {
      MkdirsAppend(a[1..], p);
      assert (a + [p])[1..] == a[1..] + [p];
    }
  }

  lemma {:induction false} MissingSound(d: Disk, parent: Path)
    ensures forall p :: p in Missing(d, parent) ==> p != [] && p <= parent && !d.IsDir(p)
    decreases |parent|
  {
    if parent != [] && !d.IsDir(parent) {
      MissingSound(d, Parent(parent));
    }
  }

  lemma RunOne(d: Disk, s: Step)
    ensures Run(d, [s]) == Do(d, s)
  {
  }

  lemma RunTwo(d: Disk, s: Step, t: Step)
    ensures Run(d, [s, t]) == match Do(d, s) case None => None case Some(e) => Do(e, t)
  {
    assert [s, t] == [s] + [t];
    RunAppend(d, [s], [t]);
    RunOne(d, s);
    if Do(d, s).Some? { RunOne(Do(d, s).value, t); }
  }

  lemma DoMkdir(d: Disk, p: Path, e: Disk)
    requires Do(d, Mkdir(p)) == Some(e) && e.IsDir(p) && !d.IsDir(p)
    ensures p != [] && d.IsDir(Parent(p)) && p !in d.nodes && e == d.(nodes := d.nodes[p := Node.Dir])
  {
  }

  /** Making the missing directories makes exactly those, none of which was there. */
  lemma {:induction false} RunMkdirs(d: Disk, parent: Path)
    requires var r := Run(d, Mkdirs(Missing(d, parent))); r.Some? && r.value.IsDir(parent)
    ensures Run(d, Mkdirs(Missing(d, parent))) == Some(Laid(d, parent))
    ensures forall p :: p in Missing(d, parent) ==> p !in d.nodes
    decreases |parent|
  {
    if parent != [] && !d.IsDir(parent) {
      var up := Missing(d, Parent(parent));
      MkdirsAppend(up, parent);
      RunAppend(d, Mkdirs(up), [Mkdir(parent)]);
      var e := Run(d, Mkdirs(up)).value;
      RunOne(e, Mkdir(parent));
      assert e.IsDir(Parent(parent));
      RunMkdirs(d, Parent(parent));
      MissingSound(d, Parent(parent));
      LaidKeeps(d, Parent(parent), parent);
      DoMkdir(e, parent, Run(d, Mkdirs(Missing(d, parent))).value);
    }
  }

  /** Nothing longer than the directories laid is touched by laying them. */
  lemma {:induction false} LaidKeeps(d: Disk, parent: Path, p: Path)
    requires p !in Missing(d, parent)
    ensures p in Laid(d, parent).nodes <==> p in d.nodes
    ensures p in d.nodes ==> Laid(d, parent).nodes[p] == d.nodes[p]
    ensures Laid(d, parent).data == d.data && Laid(d, parent).next == d.next
    decreases |parent|
  {
    if parent != [] && !d.IsDir(parent) {
      LaidKeeps(d, Parent(parent), p);
    }
  }

  lemma TempBeside(p: Path)
    requires p != []
    ensures Temp(p) != [] && Temp(p) != p && Parent(Temp(p)) == Parent(p) && |Temp(p)| == |p|
  {
    var n := p[|p| - 1];
    assert |"." + n + ".kiry"| == |n| + 6;
    assert Temp(p)[|p| - 1] == "." + n + ".kiry";
  }

  lemma {:induction false} RunWrites(d: Disk, p: Path, ino: nat, chunks: seq<Content>)
    requires p != [] && d.IsDir(Parent(p)) && p in d.nodes && d.nodes[p] == Node.File(ino) && ino in d.data
    ensures Run(d, Writes(p, chunks)) == Some(d.(data := d.data[ino := d.data[ino] + Flat(chunks)]))
    decreases |chunks|
  {
    if chunks == [] {
      assert d.data[ino] + [] == d.data[ino];
      assert d.data[ino := d.data[ino]] == d.data;
    } else {
      var e := d.(data := d.data[ino := d.data[ino] + chunks[0]]);
      assert Do(d, Write(p, chunks[0])) == Some(e);
      RunWrites(e, p, ino, chunks[1..]);
      var all := d.data[ino] + Flat(chunks);
      assert e.data[ino] + Flat(chunks[1..]) == all;
      assert e.data[ino := all] == d.data[ino := all];
    }
  }

  /** A file is made whole under its temporary name before anything is renamed. */
  lemma RunFile(d: Disk, t: Path, chunks: seq<Content>)
    requires t != [] && d.IsDir(Parent(t)) && t !in d.nodes
    ensures Run(d, [Create(t)] + Writes(t, chunks))
         == Some(Disk(d.nodes[t := Node.File(d.next)], d.data[d.next := Flat(chunks)], d.next + 1))
  {
    var e := Disk(d.nodes[t := Node.File(d.next)], d.data[d.next := []], d.next + 1);
    RunAppend(d, [Create(t)], Writes(t, chunks));
    RunOne(d, Create(t));
    RunWrites(e, t, d.next, chunks);
    assert [] + Flat(chunks) == Flat(chunks);
    assert e.data[d.next := Flat(chunks)] == d.data[d.next := Flat(chunks)];
  }

  /** The rename and the clearing after it: the node moves, whatever held the name is gone,
      and a rename between two names of one inode still leaves one name. */
  lemma RunPlacing(d: Disk, t: Path, p: Path, node: Node, nodes: map<Path, Node>)
    requires t != p && t !in nodes && d.nodes == nodes[t := node] && !node.Dir?
    requires Run(d, [Rename(t, p), Clear(t)]).Some?
    ensures Run(d, [Rename(t, p), Clear(t)]).value == d.(nodes := nodes[p := node]) && !d.IsDir(p)
  {
    RunTwo(d, Rename(t, p), Clear(t));
    assert d.nodes - {t} == nodes;
    assert d.nodes[p := node] - {t} == nodes[p := node];
  }

  /** The second half, from a disk whose directories are there and whose temporary name is
      free or taken by a directory. */
  lemma RunMember(base: Disk, m: Member, skip: set<Path>)
    requires m.path != [] && base.IsDir(Parent(m.path)) && !base.IsLeaf(Temp(m.path))
    requires Run(base, Making(m, skip) + Placing(m, skip)).Some?
    ensures Run(base, Making(m, skip) + Placing(m, skip)).value == Placed(base, m, skip)
    ensures !m.what.Dir? && m.path !in skip ==> !base.IsDir(m.path)
  {
    TempBeside(m.path);
    var t := Temp(m.path);
    RunAppend(base, Making(m, skip), Placing(m, skip));
    var mid := Run(base, Making(m, skip)).value;
    if m.what.Dir? {
      RunOne(base, Mkdir(m.path));
      RunOne(mid, Clear(t));
    } else {
      RunLeaf(base, m, skip, mid);
      if m.path in skip {
        RunOne(mid, Clear(t));
        if t in mid.nodes {
          assert base.nodes[t := mid.nodes[t]] - {t} == base.nodes - {t};
        }
        assert t !in base.nodes ==> base.nodes - {t} == base.nodes;
      } else {
        RunPlacing(mid, t, m.path, mid.nodes[t], base.nodes);
      }
    }
  }

  /** Whatever a member is, it stands whole under its temporary name and nowhere else. */
  lemma RunLeaf(base: Disk, m: Member, skip: set<Path>, mid: Disk)
    requires m.path != [] && base.IsDir(Parent(m.path)) && !base.IsLeaf(Temp(m.path)) && !m.what.Dir?
    requires Run(base, Making(m, skip)) == Some(mid)
    ensures m.what.File? && m.path in skip ==> mid == base
    ensures !(m.what.File? && m.path in skip) ==>
      var t := Temp(m.path);
      && t !in base.nodes && t in mid.nodes && mid.nodes == base.nodes[t := mid.nodes[t]]
      && (m.what.File? ==>
            && mid.nodes[t] == Node.File(base.next)
            && mid.data == base.data[base.next := Flat(m.what.chunks)]
            && mid.next == base.next + 1)
      && (!m.what.File? ==> mid.data == base.data && mid.next == base.next)
      && (m.what.Link? ==> mid.nodes[t] == Node.Link(m.what.target))
      && (m.what.Hard? ==> base.IsLeaf(m.what.to) && mid.nodes[t] == base.nodes[m.what.to])
  {
    TempBeside(m.path);
    var t := Temp(m.path);
    match m.what
    case File(chunks) =>
      if m.path !in skip {
        RunAppend(base, [Create(t)], Writes(t, chunks));
        RunOne(base, Create(t));
        RunFile(base, t, chunks);
      }
    case Link(target) => RunOne(base, Symlink(t, target));
    case Hard(from) => RunOne(base, Hardlink(from, t));
    case Dir =>
  }

  lemma {:induction false} RunValid(d: Disk, steps: seq<Step>)
    requires d.Valid()
    ensures Run(d, steps).Some? ==> Run(d, steps).value.Valid()
    decreases |steps|
  {
    if steps != [] && Do(d, steps[0]).Some? {
      DoValid(d, steps[0]);
      RunValid(Do(d, steps[0]).value, steps[1..]);
    }
  }

  lemma {:induction false} LaidNodes(d: Disk, parent: Path, p: Path)
    ensures var l := Laid(d, parent);
      if p in Missing(d, parent) then p in l.nodes && l.nodes[p].Dir?
      else (p in l.nodes <==> p in d.nodes) && (p in d.nodes ==> l.nodes[p] == d.nodes[p])
    decreases |parent|
  {
    if parent != [] && !d.IsDir(parent) {
      LaidNodes(d, Parent(parent), p);
    }
  }

  lemma LaidData(d: Disk, parent: Path)
    ensures Laid(d, parent).data == d.data && Laid(d, parent).next == d.next
    decreases |parent|
  {
  }

  /** What a member needs of the disk: nothing but directories above it, no symlink where it
      makes a directory, no directory where a leaf or its temporary file goes, a hard link's
      target in place, and a symlink's target not empty. */
  ghost predicate Fits(d: Disk, m: Member, skip: set<Path>) {
    && m.path != []
    && (forall p :: p in Missing(d, Parent(m.path)) ==> p !in d.nodes)
    && (m.what.Dir? ==> m.path !in d.nodes || !d.nodes[m.path].Link?)
    && (m.what.Link? ==> m.what.target != "")
    && (m.what.Hard? ==> d.IsLeaf(m.what.to) && m.what.to != Temp(m.path))
    && (!m.what.Dir? && !(m.what.File? && m.path in skip) ==> !d.IsDir(Temp(m.path)))
    && (!m.what.Dir? && m.path !in skip ==> !d.IsDir(m.path))
  }

  predicate Opens(d: Disk, p: Path) {
    d.IsDir(p) && (p == [] || d.IsDir(Parent(p)))
  }

  lemma RunOpen(e: Disk, up: Path, t: Path)
    requires t != [] && Parent(t) == up
    ensures Run(e, [Open(up), Clear(t)]) == if Opens(e, up) then Some(Cleared(e, t)) else None
  {
    RunTwo(e, Open(up), Clear(t));
  }

  /** A member's calls: the directories, the opening of the parent, and the member itself. */
  lemma StepsHalves(d: Disk, m: Member, skip: set<Path>)
    requires m.path != []
    ensures var mid := Run(d, Mkdirs(Missing(d, Parent(m.path))));
      Run(d, Steps(d, m, skip)) ==
        if mid.Some? && Opens(mid.value, Parent(m.path))
        then Run(Cleared(mid.value, Temp(m.path)), Making(m, skip) + Placing(m, skip)) else None
  {
    var up, t := Parent(m.path), Temp(m.path);
    var dirs, open, leaf := Mkdirs(Missing(d, up)), [Open(up), Clear(t)], Making(m, skip) + Placing(m, skip);
    assert Steps(d, m, skip) == dirs + (open + leaf);
    RunAppend(d, dirs, open + leaf);
    TempBeside(m.path);
    if Run(d, dirs).Some? {
      RunAppend(Run(d, dirs).value, open, leaf);
      RunOpen(Run(d, dirs).value, up, t);
    }
  }

  /** The missing directories can be made exactly when nothing else has their names. */
  lemma {:induction false} MkdirsRun(d: Disk, parent: Path)
    requires forall p :: p in Missing(d, parent) ==> p !in d.nodes
    ensures Run(d, Mkdirs(Missing(d, parent))) == Some(Laid(d, parent)) && Laid(d, parent).IsDir(parent)
    decreases |parent|
  {
    if parent != [] && !d.IsDir(parent) {
      var up := Missing(d, Parent(parent));
      MkdirsRun(d, Parent(parent));
      MkdirsAppend(up, parent);
      RunAppend(d, Mkdirs(up), [Mkdir(parent)]);
      RunOne(Laid(d, Parent(parent)), Mkdir(parent));
      MissingSound(d, Parent(parent));
      LaidKeeps(d, Parent(parent), parent);
    }
  }

  /** A member that went on disk fitted it, and left what `Put` says. */
  lemma StepsFit(d: Disk, m: Member, skip: set<Path>)
    requires m.path != [] && Run(d, Steps(d, m, skip)).Some?
    ensures Run(d, Steps(d, m, skip)).value == Put(d, m, skip) && Fits(d, m, skip)
  {
    StepsHalves(d, m, skip);
    RunMkdirs(d, Parent(m.path));
    BaseFits(d, m);
    RunMember(Base(d, m), m, skip);
    MemberFits(Base(d, m), m, skip);
    FitsBase(d, m, skip);
  }

  /** The second half of `Fits`, of the disk that half starts from. */
  ghost predicate FitsThere(base: Disk, m: Member, skip: set<Path>)
    requires m.path != []
  {
    && (m.what.Dir? ==> m.path !in base.nodes || !base.nodes[m.path].Link?)
    && (m.what.Link? ==> m.what.target != "")
    && (m.what.Hard? ==> base.IsLeaf(m.what.to))
    && (!m.what.Dir? && !(m.what.File? && m.path in skip) ==> !base.IsDir(Temp(m.path)))
    && (!m.what.Dir? && m.path !in skip ==> !base.IsDir(m.path))
  }

  lemma FitsBase(d: Disk, m: Member, skip: set<Path>)
    requires m.path != [] && forall p :: p in Missing(d, Parent(m.path)) ==> p !in d.nodes
    ensures Fits(d, m, skip) <==> FitsThere(Base(d, m), m, skip)
  {
    TempBeside(m.path);
    OwnNotMissing(d, m.path);
    OwnNotMissing(d, Temp(m.path));
    BaseAt(d, m, m.path);
    BaseAt(d, m, Temp(m.path));
    if m.what.Hard? { BaseAt(d, m, m.what.to); }
  }

  lemma BaseFits(d: Disk, m: Member)
    requires m.path != [] && Laid(d, Parent(m.path)).IsDir(Parent(m.path))
    ensures Base(d, m).IsDir(Parent(m.path)) && !Base(d, m).IsLeaf(Temp(m.path))
  {
    TempBeside(m.path);
  }

  lemma MemberFits(base: Disk, m: Member, skip: set<Path>)
    requires m.path != [] && base.IsDir(Parent(m.path)) && !base.IsLeaf(Temp(m.path))
    requires Run(base, Making(m, skip) + Placing(m, skip)).Some?
    ensures FitsThere(base, m, skip)
  {
    TempBeside(m.path);
    RunMember(base, m, skip);
    RunAppend(base, Making(m, skip), Placing(m, skip));
    if m.what.Dir? {
      RunOne(base, Mkdir(m.path));
    } else {
      RunLeaf(base, m, skip, Run(base, Making(m, skip)).value);
      if m.what.Link? { RunOne(base, Symlink(Temp(m.path), m.what.target)); }
    }
  }

  /** The second half, from a disk that has nothing in its way. */
  lemma MemberRuns(base: Disk, m: Member, skip: set<Path>)
    requires m.path != [] && base.IsDir(Parent(m.path)) && !base.IsLeaf(Temp(m.path)) && FitsThere(base, m, skip)
    ensures Run(base, Making(m, skip) + Placing(m, skip)).Some?
  {
    TempBeside(m.path);
    var t := Temp(m.path);
    RunAppend(base, Making(m, skip), Placing(m, skip));
    MakingRuns(base, m, skip);
    var mid := Run(base, Making(m, skip)).value;
    if m.what.Dir? || m.path in skip {
      if m.what.Dir? { RunOne(base, Mkdir(m.path)); } else { RunLeaf(base, m, skip, mid); }
      RunOne(mid, Clear(t));
    } else {
      RunLeaf(base, m, skip, mid);
      RunTwo(mid, Rename(t, m.path), Clear(t));
    }
  }

  lemma MakingRuns(base: Disk, m: Member, skip: set<Path>)
    requires m.path != [] && base.IsDir(Parent(m.path)) && !base.IsLeaf(Temp(m.path)) && FitsThere(base, m, skip)
    ensures Run(base, Making(m, skip)).Some?
  {
    TempBeside(m.path);
    var t := Temp(m.path);
    match m.what
    case Dir => RunOne(base, Mkdir(m.path));
    case File(chunks) => if m.path !in skip { RunFile(base, t, chunks); }
    case Link(target) => RunOne(base, Symlink(t, target));
    case Hard(from) => RunOne(base, Hardlink(from, t));
  }

  /** On a tree, a member goes on disk exactly when it fits, and leaves what `Put` says. */
  lemma StepsPut(d: Disk, m: Member, skip: set<Path>)
    requires d.Valid() && m.path != []
    ensures Run(d, Steps(d, m, skip)).Some? <==> Fits(d, m, skip)
    ensures Run(d, Steps(d, m, skip)).Some? ==> Run(d, Steps(d, m, skip)).value == Put(d, m, skip)
  {
    if Run(d, Steps(d, m, skip)).Some? {
      StepsFit(d, m, skip);
    }
    if Fits(d, m, skip) {
      FitRuns(d, m, skip);
    }
  }

  lemma FitRuns(d: Disk, m: Member, skip: set<Path>)
    requires d.Valid() && m.path != [] && Fits(d, m, skip)
    ensures Run(d, Steps(d, m, skip)).Some?
  {
    StepsHalves(d, m, skip);
    MkdirsRun(d, Parent(m.path));
    LaidOpens(d, Parent(m.path));
    BaseFits(d, m);
    FitsBase(d, m, skip);
    MemberRuns(Base(d, m), m, skip);
  }

  lemma LaidOpens(d: Disk, parent: Path)
    requires d.Valid() && forall p :: p in Missing(d, parent) ==> p !in d.nodes
    ensures Opens(Laid(d, parent), parent)
  {
    MkdirsRun(d, parent);
    if parent != [] && !d.IsDir(parent) {
      MkdirsRun(d, Parent(parent));
    }
  }

  /** What one name holds after a member was put on disk. */
  ghost predicate PutName(d: Disk, m: Member, skip: set<Path>, e: Disk, p: Path)
    requires Fits(d, m, skip)
  {
    if p == m.path && m.what.Dir? then
      p in e.nodes && e.nodes[p] == if p in d.nodes then d.nodes[p] else Node.Dir
    else if p == m.path && p !in skip then
      && p in e.nodes
      && match m.what
         case File(_) => e.nodes[p] == Node.File(d.next)
         case Link(t) => e.nodes[p] == Node.Link(t)
         case Hard(t) => e.nodes[p] == d.nodes[t]
         case Dir => true
    else if p in Missing(d, Parent(m.path)) then p in e.nodes && e.nodes[p].Dir?
    else if p == Temp(m.path) && d.IsLeaf(p) then p !in e.nodes
    else (p in e.nodes <==> p in d.nodes) && (p in d.nodes ==> e.nodes[p] == d.nodes[p])
  }

  /** What one name holds once the directories are there and the temporary name is clear. */
  lemma BaseAt(d: Disk, m: Member, p: Path)
    requires m.path != []
    ensures var base := Base(d, m);
      if p in Missing(d, Parent(m.path)) then p in base.nodes && base.nodes[p].Dir?
      else if p == Temp(m.path) && d.IsLeaf(p) then p !in base.nodes
      else (p in base.nodes <==> p in d.nodes) && (p in d.nodes ==> base.nodes[p] == d.nodes[p])
  {
    TempBeside(m.path);
    MissingSound(d, Parent(m.path));
    LaidNodes(d, Parent(m.path), p);
    LaidNodes(d, Parent(m.path), Temp(m.path));
  }

  lemma OwnNotMissing(d: Disk, p: Path)
    requires p != []
    ensures p !in Missing(d, Parent(p))
  {
    MissingSound(d, Parent(p));
  }

  lemma PutAt(d: Disk, m: Member, skip: set<Path>, p: Path)
    requires Fits(d, m, skip)
    ensures PutName(d, m, skip, Put(d, m, skip), p)
  {
    TempBeside(m.path);
    OwnNotMissing(d, m.path);
    LaidData(d, Parent(m.path));
    BaseAt(d, m, p);
    if m.what.Hard? { BaseAt(d, m, m.what.to); }
  }

  /** Only a file that is written adds bytes, and they are all of its own. */
  lemma PutData(d: Disk, m: Member, skip: set<Path>)
    requires m.path != []
    ensures var e := Put(d, m, skip);
      if m.what.File? && m.path !in skip then
        e.data == d.data[d.next := Flat(m.what.chunks)] && e.next == d.next + 1
      else e.data == d.data && e.next == d.next
  {
    LaidData(d, Parent(m.path));
  }
}
