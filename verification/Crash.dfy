/** A kill between any two calls of an extraction: every name outside the temporary ones
    still holds what it held before, or the whole of one member. */
module Crash {
  import opened Paths
  import opened Disk
  import opened Extraction
  import opened ExtractionLaws

  ghost predicate IsTemp(ms: seq<Member>, p: Path) {
    exists m :: m in ms && m.path != [] && p == Temp(m.path)
  }

  /** Nothing that can be read here is cut short: a file's bytes are all those it had before
      the extraction, or all those of one member. */
  ghost predicate Whole(d0: Disk, ms: seq<Member>, s: Disk, node: Node) {
    node.File? ==>
      && node.ino in s.data
      && (|| (node.ino in d0.data && s.data[node.ino] == d0.data[node.ino])
          || exists m :: m in ms && m.what.File? && s.data[node.ino] == Flat(m.what.chunks))
  }

  /** A file's bytes. */
  ghost function Held(s: Disk, node: Node): Option<Content> {
    if node.File? && node.ino in s.data then Some(s.data[node.ino]) else None
  }

  /** The names a member goes by, on the way and in the end. */
  ghost predicate Names(m: Member, p: Path) {
    m.path == p || (m.path != [] && Temp(m.path) == p)
  }

  /** `node`, holding these bytes, is what member `m` puts under its name. A hard link puts what
      its target held: the old node there, or what a member of that name puts, in at most `n`
      such links. */
  ghost predicate Carries(d0: Disk, ms: seq<Member>, m: Member, node: Node, bytes: Option<Content>, n: nat)
    decreases n
  {
    match m.what
    case File(chunks) => node.File? && bytes == Some(Flat(chunks))
    case Link(t) => node == Node.Link(t)
    case Dir => node.Dir?
    case Hard(t) =>
      && !node.Dir? && n > 0
      && (|| (t in d0.nodes && node == d0.nodes[t])
          || exists o :: o in ms && Names(o, t) && Carries(d0, ms, o, node, bytes, n - 1))
  }

  ghost predicate Brings(d0: Disk, ms: seq<Member>, m: Member, node: Node, bytes: Option<Content>) {
    exists n: nat :: Carries(d0, ms, m, node, bytes, n)
  }

  /** The node at a name is an old one, a directory made on the way, or what a member of that
      name puts there. */
  ghost predicate Described(d0: Disk, ms: seq<Member>, s: Disk, p: Path)
    requires p in s.nodes
  {
    || (p in d0.nodes && s.nodes[p] == d0.nodes[p])
    || (p !in d0.nodes && s.nodes[p].Dir?)
    || exists m :: m in ms && Names(m, p) && Brings(d0, ms, m, s.nodes[p], Held(s, s.nodes[p]))
  }

  /** What one name may hold: never nothing where something was. */
  ghost predicate NameOk(d0: Disk, ms: seq<Member>, s: Disk, p: Path) {
    if p !in s.nodes then p !in d0.nodes
    else (p in d0.nodes ==> (d0.nodes[p].Dir? <==> s.nodes[p].Dir?)) && Described(d0, ms, s, p)
  }

  ghost predicate OldBytes(d0: Disk, s: Disk) {
    && d0.next <= s.next
    && (forall i :: i in d0.data ==> i in s.data && s.data[i] == d0.data[i])
    && (forall i :: i in s.data ==> i < s.next)
  }

  ghost predicate Safe(d0: Disk, ms: seq<Member>, s: Disk) {
    && OldBytes(d0, s)
    && (forall p :: !IsTemp(ms, p) ==> NameOk(d0, ms, s, p))
    && (forall p :: p in s.nodes && !IsTemp(ms, p) ==> Whole(d0, ms, s, s.nodes[p]))
  }

  /** Between calls: at most one inode is cut short, it is named once, and by a temporary
      name. */
  ghost predicate Mid(d0: Disk, ms: seq<Member>, s: Disk, cut: Option<Path>) {
    && OldBytes(d0, s)
    && (forall p :: !IsTemp(ms, p) ==> NameOk(d0, ms, s, p))
    && (forall p :: p in s.nodes && Some(p) != cut ==> Whole(d0, ms, s, s.nodes[p]))
    && (forall p :: p in s.nodes && IsTemp(ms, p) && Some(p) != cut ==> s.nodes[p].Dir? || Described(d0, ms, s, p))
    && (cut.Some? ==>
          && IsTemp(ms, cut.value) && cut.value in s.nodes && s.nodes[cut.value].File?
          && s.nodes[cut.value].ino in s.data && s.nodes[cut.value].ino !in d0.data
          && forall p :: p in s.nodes && p != cut.value ==> s.nodes[p] != s.nodes[cut.value])
  }

  lemma MidSafe(d0: Disk, ms: seq<Member>, s: Disk, cut: Option<Path>)
    requires Mid(d0, ms, s, cut)
    ensures Safe(d0, ms, s)
  {
  }

  // ------------------------------------------------------------------------ single calls

  /** Another disk holds at a name what this one does. */
  ghost predicate SameAt(s: Disk, e: Disk, p: Path) {
    && (p in s.nodes <==> p in e.nodes)
    && (p in s.nodes ==> s.nodes[p] == e.nodes[p] && Held(s, s.nodes[p]) == Held(e, e.nodes[p]))
  }

  lemma SameOk(d0: Disk, ms: seq<Member>, s: Disk, e: Disk, p: Path)
    requires SameAt(s, e, p)
    ensures NameOk(d0, ms, s, p) == NameOk(d0, ms, e, p)
    ensures p in s.nodes ==> Described(d0, ms, s, p) == Described(d0, ms, e, p)
    ensures p in s.nodes && Whole(d0, ms, s, s.nodes[p]) ==> Whole(d0, ms, e, e.nodes[p])
  {
  }

  /** What the name a call changes has to hold afterwards. */
  ghost predicate NowAt(d0: Disk, ms: seq<Member>, e: Disk, t: Path, cut: Option<Path>) {
    if cut == Some(t) then
      && IsTemp(ms, t) && t in e.nodes && e.nodes[t].File?
      && e.nodes[t].ino in e.data && e.nodes[t].ino !in d0.data
      && forall p :: p in e.nodes && p != t ==> e.nodes[p] != e.nodes[t]
    else
      && cut == None
      && (t in e.nodes ==> Whole(d0, ms, e, e.nodes[t]))
      && if IsTemp(ms, t) then t in e.nodes ==> e.nodes[t].Dir? || Described(d0, ms, e, t) else NameOk(d0, ms, e, t)
  }

  /** A call that changes one name, and no bytes another name shows. */
  lemma MidAt(d0: Disk, ms: seq<Member>, s: Disk, was: Option<Path>, e: Disk, cut: Option<Path>, t: Path)
    requires Mid(d0, ms, s, was) && (was == None || was == Some(t)) && OldBytes(d0, e)
    requires (forall p :: p != t ==> SameAt(s, e, p)) && NowAt(d0, ms, e, t, cut)
    ensures Mid(d0, ms, e, cut)
  {
    forall p | !IsTemp(ms, p) ensures NameOk(d0, ms, e, p) {
      if p != t { SameOk(d0, ms, s, e, p); }
    }
    forall p | p in e.nodes && Some(p) != cut
      ensures Whole(d0, ms, e, e.nodes[p]) && (IsTemp(ms, p) ==> e.nodes[p].Dir? || Described(d0, ms, e, p))
    {
      if p != t { SameOk(d0, ms, s, e, p); }
    }
  }

  lemma MidMkdir(d0: Disk, ms: seq<Member>, s: Disk, p: Path)
    requires Mid(d0, ms, s, None) && Do(s, Mkdir(p)).Some?
    ensures Mid(d0, ms, Do(s, Mkdir(p)).value, None)
  {
    if p !in s.nodes {
      assert IsTemp(ms, p) || NameOk(d0, ms, s, p);
      MidAt(d0, ms, s, None, Do(s, Mkdir(p)).value, None, p);
    }
  }

  lemma MidClear(d0: Disk, ms: seq<Member>, s: Disk, t: Path, cut: Option<Path>)
    requires Mid(d0, ms, s, cut) && IsTemp(ms, t) && (cut == None || cut == Some(t))
    requires Do(s, Clear(t)).Some?
    ensures Mid(d0, ms, Do(s, Clear(t)).value, None)
  {
    MidAt(d0, ms, s, cut, Do(s, Clear(t)).value, None, t);
  }

  lemma MidCreate(d0: Disk, ms: seq<Member>, s: Disk, t: Path)
    requires Mid(d0, ms, s, None) && IsTemp(ms, t) && Do(s, Create(t)).Some?
    ensures Mid(d0, ms, Do(s, Create(t)).value, Some(t))
  {
    var e := Do(s, Create(t)).value;
    forall p | p != t ensures SameAt(s, e, p) && (p in e.nodes ==> e.nodes[p] != e.nodes[t]) {
      assert p in s.nodes ==> Whole(d0, ms, s, s.nodes[p]);
    }
    MidAt(d0, ms, s, None, e, Some(t), t);
  }

  lemma MidWrite(d0: Disk, ms: seq<Member>, s: Disk, t: Path, bytes: Content)
    requires Mid(d0, ms, s, Some(t)) && Do(s, Write(t, bytes)).Some?
    ensures Mid(d0, ms, Do(s, Write(t, bytes)).value, Some(t))
  {
    var e := Do(s, Write(t, bytes)).value;
    forall p | p != t ensures SameAt(s, e, p) {
      assert p in s.nodes ==> s.nodes[p] != s.nodes[t];
    }
    MidAt(d0, ms, s, Some(t), e, Some(t), t);
  }

  lemma MidSymlink(d0: Disk, ms: seq<Member>, s: Disk, m: Member)
    requires Mid(d0, ms, s, None) && m in ms && m.path != [] && m.what.Link?
    requires Do(s, Symlink(Temp(m.path), m.what.target)).Some?
    ensures Mid(d0, ms, Do(s, Symlink(Temp(m.path), m.what.target)).value, None)
  {
    var node, t := Node.Link(m.what.target), Temp(m.path);
    assert Carries(d0, ms, m, node, None, 0);
    assert IsTemp(ms, t) && Names(m, t) && Brings(d0, ms, m, node, None);
    MidAt(d0, ms, s, None, Do(s, Symlink(t, m.what.target)).value, None, t);
  }

  /** A hard link to a name puts what that name holds. */
  lemma LinkBrings(d0: Disk, ms: seq<Member>, s: Disk, m: Member)
    requires Mid(d0, ms, s, None) && m.what.Hard? && s.IsLeaf(m.what.to)
    ensures Brings(d0, ms, m, s.nodes[m.what.to], Held(s, s.nodes[m.what.to]))
  {
    var t := m.what.to;
    var node, bytes := s.nodes[t], Held(s, s.nodes[t]);
    assert IsTemp(ms, t) || NameOk(d0, ms, s, t);
    if t in d0.nodes && node == d0.nodes[t] {
      assert Carries(d0, ms, m, node, bytes, 1);
    } else {
      var o :| o in ms && Names(o, t) && Brings(d0, ms, o, node, bytes);
      var n: nat :| Carries(d0, ms, o, node, bytes, n);
      assert Carries(d0, ms, m, node, bytes, n + 1);
    }
  }

  lemma MidHardlink(d0: Disk, ms: seq<Member>, s: Disk, m: Member)
    requires Mid(d0, ms, s, None) && m in ms && m.path != [] && m.what.Hard?
    requires Do(s, Hardlink(m.what.to, Temp(m.path))).Some?
    ensures Mid(d0, ms, Do(s, Hardlink(m.what.to, Temp(m.path))).value, None)
  {
    var t, from := Temp(m.path), m.what.to;
    var e := Do(s, Hardlink(from, t)).value;
    LinkBrings(d0, ms, s, m);
    assert IsTemp(ms, t) && Names(m, t);
    assert Whole(d0, ms, s, s.nodes[from]) && e.nodes[t] == s.nodes[from] && e.data == s.data;
    MidAt(d0, ms, s, None, e, None, t);
  }

  /** A member's name takes a second node it brings, and loses what it held. */
  lemma MidPut(d0: Disk, ms: seq<Member>, s: Disk, t: Path, m: Member)
    requires Mid(d0, ms, s, None) && m in ms && t in s.nodes && !s.nodes[t].Dir? && !s.IsDir(m.path)
    requires Brings(d0, ms, m, s.nodes[t], Held(s, s.nodes[t]))
    ensures Mid(d0, ms, s.(nodes := s.nodes[m.path := s.nodes[t]]), None)
  {
    var p, node := m.path, s.nodes[t];
    var e := s.(nodes := s.nodes[p := node]);
    assert Whole(d0, ms, s, node);
    assert Names(m, p) && Described(d0, ms, e, p);
    assert NowAt(d0, ms, e, p, None) by {
      assert IsTemp(ms, p) || NameOk(d0, ms, s, p);
    }
    MidAt(d0, ms, s, None, e, None, p);
  }

  lemma MidDrop(d0: Disk, ms: seq<Member>, s: Disk, t: Path)
    requires Mid(d0, ms, s, None) && IsTemp(ms, t)
    ensures Mid(d0, ms, s.(nodes := s.nodes - {t}), None)
  {
    MidAt(d0, ms, s, None, s.(nodes := s.nodes - {t}), None, t);
  }

  /** A rename is the node at its new name and then the old name gone, or nothing at all. */
  lemma RenameMoves(s: Disk, t: Path, p: Path)
    requires Do(s, Rename(t, p)).Some?
    ensures s.IsLeaf(t) && !s.IsDir(p)
    ensures var e := Do(s, Rename(t, p)).value; e == s || e == s.(nodes := s.nodes[p := s.nodes[t]] - {t})
  {
    var node := s.nodes[t];
    if t == p {
      assert (s.nodes - {t})[p := node] == s.nodes;
    } else {
      assert s.nodes[p := node] - {t} == (s.nodes - {t})[p := node];
    }
  }

  lemma MidRename(d0: Disk, ms: seq<Member>, s: Disk, t: Path, m: Member)
    requires Mid(d0, ms, s, None) && IsTemp(ms, t) && m in ms && t in s.nodes && Brings(d0, ms, m, s.nodes[t], Held(s, s.nodes[t]))
    requires Do(s, Rename(t, m.path)).Some?
    ensures Mid(d0, ms, Do(s, Rename(t, m.path)).value, None)
  {
    var p, node := m.path, s.nodes[t];
    RenameMoves(s, t, p);
    if Do(s, Rename(t, p)).value != s {
      MidPut(d0, ms, s, t, m);
      MidDrop(d0, ms, s.(nodes := s.nodes[p := node]), t);
    }
  }

  // ----------------------------------------------------------------------- whole members

  /** Every disk a run passes through is safe, the first and the last included. */
  ghost predicate Throughout(d0: Disk, ms: seq<Member>, d: Disk, steps: seq<Step>)
    decreases |steps|
  {
    && Safe(d0, ms, d)
    && (steps != [] && Do(d, steps[0]).Some? ==> Throughout(d0, ms, Do(d, steps[0]).value, steps[1..]))
  }

  lemma {:induction false} ThroughoutAppend(d0: Disk, ms: seq<Member>, d: Disk, a: seq<Step>, b: seq<Step>)
    requires Throughout(d0, ms, d, a)
    requires Run(d, a).Some? ==> Throughout(d0, ms, Run(d, a).value, b)
    ensures Throughout(d0, ms, d, a + b)
    decreases |a|
  {
    if a == [] {
      assert a + b == b;
    } else {
      assert (a + b)[1..] == a[1..] + b;
      if Do(d, a[0]).Some? {
        ThroughoutAppend(d0, ms, Do(d, a[0]).value, a[1..], b);
      }
    }
  }

  lemma {:induction false} ThroughoutPrefix(d0: Disk, ms: seq<Member>, d: Disk, steps: seq<Step>, k: nat)
    requires Throughout(d0, ms, d, steps) && k <= |steps| && Run(d, steps[..k]).Some?
    ensures Safe(d0, ms, Run(d, steps[..k]).value)
    decreases |steps|
  {
    if k > 0 {
      assert steps[..k][1..] == steps[1..][..k - 1];
      ThroughoutPrefix(d0, ms, Do(d, steps[0]).value, steps[1..], k - 1);
    }
  }

  lemma {:induction false} MkdirsSafe(d0: Disk, ms: seq<Member>, d: Disk, dirs: seq<Path>)
    requires Mid(d0, ms, d, None)
    ensures Throughout(d0, ms, d, Mkdirs(dirs))
    ensures var r := Run(d, Mkdirs(dirs)); r.Some? ==> Mid(d0, ms, r.value, None)
    decreases |dirs|
  {
    MidSafe(d0, ms, d, None);
    if dirs != [] && Do(d, Mkdir(dirs[0])).Some? {
      MidMkdir(d0, ms, d, dirs[0]);
      MkdirsSafe(d0, ms, Do(d, Mkdir(dirs[0])).value, dirs[1..]);
    }
  }

  lemma {:induction false} WritesSafe(d0: Disk, ms: seq<Member>, d: Disk, t: Path, chunks: seq<Content>)
    requires Mid(d0, ms, d, Some(t))
    ensures Throughout(d0, ms, d, Writes(t, chunks))
    ensures var r := Run(d, Writes(t, chunks)); r.Some? ==> Mid(d0, ms, r.value, Some(t))
    decreases |chunks|
  {
    MidSafe(d0, ms, d, Some(t));
    if chunks != [] && Do(d, Write(t, chunks[0])).Some? {
      MidWrite(d0, ms, d, t, chunks[0]);
      WritesSafe(d0, ms, Do(d, Write(t, chunks[0])).value, t, chunks[1..]);
    }
  }

  /** The run is safe throughout and, if it ends, ends between members. */
  ghost predicate Good(d0: Disk, ms: seq<Member>, d: Disk, steps: seq<Step>) {
    && Throughout(d0, ms, d, steps)
    && (Run(d, steps).Some? ==> Mid(d0, ms, Run(d, steps).value, None))
  }

  lemma GoodOne(d0: Disk, ms: seq<Member>, d: Disk, s: Step)
    requires Mid(d0, ms, d, None) && (Do(d, s).Some? ==> Mid(d0, ms, Do(d, s).value, None))
    ensures Good(d0, ms, d, [s])
  {
    MidSafe(d0, ms, d, None);
    RunOne(d, s);
    if Do(d, s).Some? { MidSafe(d0, ms, Do(d, s).value, None); }
  }

  lemma GoodAppend(d0: Disk, ms: seq<Member>, d: Disk, a: seq<Step>, b: seq<Step>)
    requires Throughout(d0, ms, d, a)
    requires Run(d, a).Some? ==> Good(d0, ms, Run(d, a).value, b)
    ensures Good(d0, ms, d, a + b)
  {
    RunAppend(d, a, b);
    ThroughoutAppend(d0, ms, d, a, b);
  }

  /** A file's bytes go to the temporary name only, and once written it is whole. */
  lemma FileSafe(d0: Disk, ms: seq<Member>, d: Disk, t: Path, m: Member)
    requires Mid(d0, ms, d, None) && m in ms && m.what.File? && m.path != [] && t == Temp(m.path)
    requires d.IsDir(Parent(t)) && t !in d.nodes
    ensures Good(d0, ms, d, [Create(t)] + Writes(t, m.what.chunks))
  {
    var writes := Writes(t, m.what.chunks);
    var e := Do(d, Create(t)).value;
    MidSafe(d0, ms, d, None);
    MidCreate(d0, ms, d, t);
    WritesSafe(d0, ms, e, t, m.what.chunks);
    RunOne(d, Create(t));
    assert Throughout(d0, ms, d, [Create(t)]) by {
      MidSafe(d0, ms, e, Some(t));
    }
    RunFile(d, t, m.what.chunks);
    RunAppend(d, [Create(t)], writes);
    ThroughoutAppend(d0, ms, d, [Create(t)], writes);
    FileMade(d0, ms, Run(e, writes).value, t, m);
  }

  /** A file written out is whole, and what its member brings. */
  lemma FileMade(d0: Disk, ms: seq<Member>, r: Disk, t: Path, m: Member)
    requires Mid(d0, ms, r, Some(t)) && m in ms && m.what.File? && m.path != [] && t == Temp(m.path)
    requires Held(r, r.nodes[t]) == Some(Flat(m.what.chunks))
    ensures Mid(d0, ms, r, None)
  {
    assert Carries(d0, ms, m, r.nodes[t], Held(r, r.nodes[t]), 0);
    assert Names(m, t) && Brings(d0, ms, m, r.nodes[t], Held(r, r.nodes[t]));
    MidAt(d0, ms, r, Some(t), r, None, t);
  }

  /** Making a member never shows it: until the rename it is under the temporary name only. */
  lemma MakingSafe(d0: Disk, ms: seq<Member>, d: Disk, m: Member, skip: set<Path>)
    requires Mid(d0, ms, d, None) && m in ms && m.path != []
    requires d.IsDir(Parent(m.path)) && !d.IsLeaf(Temp(m.path))
    ensures Good(d0, ms, d, Making(m, skip))
  {
    var t := Temp(m.path);
    TempBeside(m.path);
    match m.what
    case Dir =>
      if Do(d, Mkdir(m.path)).Some? { MidMkdir(d0, ms, d, m.path); }
      GoodOne(d0, ms, d, Mkdir(m.path));
    case Link(target) =>
      if Do(d, Symlink(t, target)).Some? { MidSymlink(d0, ms, d, m); }
      GoodOne(d0, ms, d, Symlink(t, target));
    case Hard(from) =>
      if Do(d, Hardlink(from, t)).Some? { MidHardlink(d0, ms, d, m); }
      GoodOne(d0, ms, d, Hardlink(from, t));
    case File(chunks) =>
      MidSafe(d0, ms, d, None);
      if m.path !in skip {
        if t in d.nodes {
          assert Do(d, Create(t)) == None;
        } else {
          FileSafe(d0, ms, d, t, m);
        }
      }
  }

  /** What the temporary name holds once a member is made is what that member brings. */
  lemma MadeBrings(d0: Disk, ms: seq<Member>, d: Disk, m: Member, skip: set<Path>)
    requires Mid(d0, ms, d, None) && m.path != [] && !m.what.Dir? && m.path !in skip
    requires d.IsDir(Parent(m.path)) && !d.IsLeaf(Temp(m.path)) && Run(d, Making(m, skip)).Some?
    ensures var e := Run(d, Making(m, skip)).value;
      Temp(m.path) in e.nodes && Brings(d0, ms, m, e.nodes[Temp(m.path)], Held(e, e.nodes[Temp(m.path)]))
  {
    var e := Run(d, Making(m, skip)).value;
    RunLeaf(d, m, skip, e);
    var node := e.nodes[Temp(m.path)];
    if m.what.Hard? {
      LinkBrings(d0, ms, d, m);
    } else {
      assert Carries(d0, ms, m, node, Held(e, node), 0);
    }
  }

  lemma PlacingSafe(d0: Disk, ms: seq<Member>, d: Disk, m: Member, skip: set<Path>)
    requires Mid(d0, ms, d, None) && m in ms && m.path != []
    requires !m.what.Dir? && m.path !in skip ==> Temp(m.path) in d.nodes && Brings(d0, ms, m, d.nodes[Temp(m.path)], Held(d, d.nodes[Temp(m.path)]))
    ensures Good(d0, ms, d, Placing(m, skip))
  {
    var t := Temp(m.path);
    if m.what.Dir? || m.path in skip {
      assert Placing(m, skip) == [Clear(t)];
      ClearSafe(d0, ms, d, t);
    } else {
      assert Placing(m, skip) == [Rename(t, m.path)] + [Clear(t)];
      RenameSafe(d0, ms, d, t, m);
      RunOne(d, Rename(t, m.path));
      if Do(d, Rename(t, m.path)).Some? {
        ClearSafe(d0, ms, Do(d, Rename(t, m.path)).value, t);
      }
      GoodAppend(d0, ms, d, [Rename(t, m.path)], [Clear(t)]);
    }
  }

  lemma RenameSafe(d0: Disk, ms: seq<Member>, d: Disk, t: Path, m: Member)
    requires Mid(d0, ms, d, None) && IsTemp(ms, t) && m in ms && t in d.nodes && Brings(d0, ms, m, d.nodes[t], Held(d, d.nodes[t]))
    ensures Good(d0, ms, d, [Rename(t, m.path)])
    ensures Do(d, Rename(t, m.path)).Some? ==> Mid(d0, ms, Do(d, Rename(t, m.path)).value, None)
  {
    if Do(d, Rename(t, m.path)).Some? {
      MidRename(d0, ms, d, t, m);
    }
    GoodOne(d0, ms, d, Rename(t, m.path));
  }

  lemma ClearSafe(d0: Disk, ms: seq<Member>, d: Disk, t: Path)
    requires Mid(d0, ms, d, None) && IsTemp(ms, t)
    ensures Good(d0, ms, d, [Clear(t)])
  {
    if Do(d, Clear(t)).Some? { MidClear(d0, ms, d, t, None); }
    GoodOne(d0, ms, d, Clear(t));
  }

  lemma OpenSafe(d0: Disk, ms: seq<Member>, d: Disk, up: Path, t: Path)
    requires Mid(d0, ms, d, None) && IsTemp(ms, t)
    ensures Good(d0, ms, d, [Open(up), Clear(t)])
  {
    RunOne(d, Open(up));
    GoodOne(d0, ms, d, Open(up));
    ClearSafe(d0, ms, d, t);
    assert [Open(up), Clear(t)] == [Open(up)] + [Clear(t)];
    GoodAppend(d0, ms, d, [Open(up)], [Clear(t)]);
  }

  /** The half that runs once the directories are there. */
  lemma LeafSafe(d0: Disk, ms: seq<Member>, d: Disk, m: Member, skip: set<Path>)
    requires Mid(d0, ms, d, None) && m in ms && m.path != []
    requires d.IsDir(Parent(m.path)) && !d.IsLeaf(Temp(m.path))
    ensures Good(d0, ms, d, Making(m, skip) + Placing(m, skip))
  {
    MakingSafe(d0, ms, d, m, skip);
    if Run(d, Making(m, skip)).Some? {
      if !m.what.Dir? && m.path !in skip { MadeBrings(d0, ms, d, m, skip); }
      PlacingSafe(d0, ms, Run(d, Making(m, skip)).value, m, skip);
    }
    GoodAppend(d0, ms, d, Making(m, skip), Placing(m, skip));
  }

  lemma MemberSafe(d0: Disk, ms: seq<Member>, d: Disk, m: Member, skip: set<Path>)
    requires Mid(d0, ms, d, None) && m in ms && m.path != []
    ensures Good(d0, ms, d, Steps(d, m, skip))
  {
    var t, up := Temp(m.path), Parent(m.path);
    var dirs, open, leaf := Mkdirs(Missing(d, up)), [Open(up), Clear(t)], Making(m, skip) + Placing(m, skip);
    StepsAre(d, m, skip);
    MkdirsSafe(d0, ms, d, Missing(d, up));
    if Run(d, dirs).Some? {
      OpenedSafe(d0, ms, Run(d, dirs).value, m, skip);
    }
    GoodAppend(d0, ms, d, dirs, open + leaf);
  }

  lemma StepsAre(d: Disk, m: Member, skip: set<Path>)
    requires m.path != []
    ensures Steps(d, m, skip) ==
      Mkdirs(Missing(d, Parent(m.path))) + ([Open(Parent(m.path)), Clear(Temp(m.path))] + (Making(m, skip) + Placing(m, skip)))
  {
  }

  lemma OpenedSafe(d0: Disk, ms: seq<Member>, e: Disk, m: Member, skip: set<Path>)
    requires Mid(d0, ms, e, None) && m in ms && m.path != []
    ensures Good(d0, ms, e, [Open(Parent(m.path)), Clear(Temp(m.path))] + (Making(m, skip) + Placing(m, skip)))
  {
    var t, up := Temp(m.path), Parent(m.path);
    var open, leaf := [Open(up), Clear(t)], Making(m, skip) + Placing(m, skip);
    OpenSafe(d0, ms, e, up, t);
    RunTwo(e, Open(up), Clear(t));
    if Run(e, open).Some? {
      LeafSafe(d0, ms, Run(e, open).value, m, skip);
    }
    GoodAppend(d0, ms, e, open, leaf);
  }

  // ---------------------------------------------------------------------- whole archives

  /** `s` is the disk a kill leaves: some prefix of the calls, in some member. */
  ghost predicate Killed(d: Disk, ms: seq<Member>, skip: set<Path>, s: Disk)
    decreases |ms|
  {
    if ms == [] then s == d
    else
      && ms[0].path != []
      && var steps := Steps(d, ms[0], skip);
         || (exists k :: 0 <= k <= |steps| && Run(d, steps[..k]) == Some(s))
         || (Run(d, steps).Some? && Killed(Run(d, steps).value, ms[1..], skip, s))
  }

  lemma {:induction false} KilledFrom(d0: Disk, all: seq<Member>, i: nat, d: Disk, skip: set<Path>, s: Disk)
    requires i <= |all| && Mid(d0, all, d, None) && Killed(d, all[i..], skip, s)
    ensures Safe(d0, all, s)
    decreases |all| - i
  {
    if i == |all| {
      MidSafe(d0, all, d, None);
    } else {
      assert all[i..][1..] == all[i + 1..];
      var steps := Steps(d, all[i], skip);
      MemberSafe(d0, all, d, all[i], skip);
      if k :| 0 <= k <= |steps| && Run(d, steps[..k]) == Some(s) {
        ThroughoutPrefix(d0, all, d, steps, k);
      } else {
        KilledFrom(d0, all, i + 1, Run(d, steps).value, skip, s);
      }
    }
  }

  /** Wherever an extraction is killed, the disk it leaves is safe. */
  lemma CrashSafe(d: Disk, ms: seq<Member>, skip: set<Path>, s: Disk)
    requires d.Valid() && Killed(d, ms, skip, s)
    ensures Safe(d, ms, s)
  {
    assert ms[0..] == ms;
    KilledFrom(d, ms, 0, d, skip, s);
  }
}
