/** The root directory as the installer changes it: names, inodes, and the calls the
    installer makes, one function a call. */
module Disk {
  import opened Paths

  newtype Byte = x: int | 0 <= x < 256

  type Content = seq<Byte>

  datatype Node = File(ino: nat) | Link(target: string) | Dir

  /** `next` is an inode number nothing has used yet. */
  datatype Disk = Disk(nodes: map<Path, Node>, data: map<nat, Content>, next: nat) {

    predicate IsDir(p: Path) {
      p == [] || (p in nodes && nodes[p].Dir?)
    }

    /** A name that holds something other than a directory. */
    predicate IsLeaf(p: Path) {
      p in nodes && !nodes[p].Dir?
    }

    /** What a file holds, through its inode. */
    function Bytes(p: Path): Option<Content> {
      if p in nodes && nodes[p].File? && nodes[p].ino in data then Some(data[nodes[p].ino]) else None
    }

    predicate Empty(p: Path) {
      forall q <- nodes.Keys :: q != [] && Parent(q) == p ==> false
    }

    /** A tree: everything named sits in a directory, every file has its bytes. */
    ghost predicate Valid() {
      && [] !in nodes
      && (forall p :: p in nodes ==> IsDir(Parent(p)))
      && (forall p :: p in nodes && nodes[p].File? ==> nodes[p].ino in data)
      && (forall i :: i in data ==> i < next)
    }
  }

  function Parent(p: Path): Path {
    if p == [] then [] else p[..|p| - 1]
  }

  datatype Step =
    | Open(path: Path)
    | Mkdir(path: Path)
    | Clear(path: Path)
    | Create(path: Path)
    | Write(path: Path, bytes: Content)
    | Symlink(path: Path, target: string)
    | Hardlink(from: Path, path: Path)
    | Rename(from: Path, path: Path)

  /** One call. `None` is an error the installer gives up on; a call whose error it ignores
      leaves the disk as it was. A directory is opened by its literal path or not at all. */
  function Do(d: Disk, s: Step): Option<Disk> {
    if s.path != [] && !d.IsDir(Parent(s.path)) then None
    else
      match s
      case Open(p) =>
        if d.IsDir(p) then Some(d) else None
      case Mkdir(p) =>
        // EEXIST is not an error, and what is there is not looked at
        if p == [] || (p in d.nodes && d.nodes[p].Link?) then None
        else if p in d.nodes then Some(d)
        else Some(d.(nodes := d.nodes[p := Dir]))
      case Clear(p) =>
        Some(if d.IsLeaf(p) then d.(nodes := d.nodes - {p}) else d)
      case Create(p) =>
        if p == [] || p in d.nodes then None
        else Some(Disk(d.nodes[p := File(d.next)], d.data[d.next := []], d.next + 1))
      case Write(p, bytes) =>
        if d.Bytes(p) == None then None
        else Some(d.(data := d.data[d.nodes[p].ino := d.Bytes(p).value + bytes]))
      case Symlink(p, t) =>
        if p == [] || p in d.nodes || t == "" then None
        else Some(d.(nodes := d.nodes[p := Link(t)]))
      case Hardlink(from, p) =>
        if p == [] || p in d.nodes || !d.IsLeaf(from) then None
        else Some(d.(nodes := d.nodes[p := d.nodes[from]]))
      case Rename(from, p) =>
        if !d.IsLeaf(from) || d.IsDir(p) then None
        // two names of one inode: rename does nothing and both stay
        else if p in d.nodes && d.nodes[p] == d.nodes[from] && d.nodes[p].File? then Some(d)
        else Some(d.(nodes := (d.nodes - {from})[p := d.nodes[from]]))
  }

  function Run(d: Disk, steps: seq<Step>): Option<Disk>
    decreases |steps|
  {
    if steps == [] then Some(d)
    else
      match Do(d, steps[0])
      case None => None
      case Some(e) => Run(e, steps[1..])
  }

  lemma {:induction false} RunAppend(d: Disk, a: seq<Step>, b: seq<Step>)
    ensures Run(d, a + b) == match Run(d, a) case None => None case Some(e) => Run(e, b)
    decreases |a|
  {
    if a == [] {
      assert a + b == b;
    } else {
      assert (a + b)[1..] == a[1..] + b;
      if Do(d, a[0]).Some? {
        RunAppend(Do(d, a[0]).value, a[1..], b);
      }
    }
  }

  lemma NameValid(d: Disk, p: Path, n: Node)
    requires d.Valid() && p != [] && d.IsDir(Parent(p)) && !d.IsDir(p) && (n.File? ==> n.ino in d.data)
    ensures d.(nodes := d.nodes[p := n]).Valid()
  {
    var r := d.(nodes := d.nodes[p := n]);
    forall q | q in r.nodes ensures r.IsDir(Parent(q)) {
      assert d.IsDir(Parent(q));
    }
  }

  lemma DoValid(d: Disk, s: Step)
    requires d.Valid()
    ensures Do(d, s).Some? ==> Do(d, s).value.Valid()
  {
    if Do(d, s).Some? {
      match s
      case Open(_) =>
      case Mkdir(p) => if p !in d.nodes { NameValid(d, p, Dir); }
      case Clear(p) => if d.IsLeaf(p) { LeafGone(d, p); }
      case Create(p) => NameValid(d.(data := d.data[d.next := []], next := d.next + 1), p, File(d.next));
      case Write(_, _) =>
      case Symlink(p, t) => NameValid(d, p, Link(t));
      case Hardlink(from, p) => NameValid(d, p, d.nodes[from]);
      case Rename(from, p) =>
        LeafGone(d, from);
        NameValid(d.(nodes := d.nodes - {from}), p, d.nodes[from]);
    }
  }

  /** Nothing sits in a name that is no directory, so taking it leaves a tree. */
  lemma LeafGone(d: Disk, p: Path)
    requires d.Valid() && d.IsLeaf(p)
    ensures d.(nodes := d.nodes - {p}).Valid()
  {
    var e := d.(nodes := d.nodes - {p});
    forall q | q in e.nodes ensures e.IsDir(Parent(q)) {
      assert d.IsDir(Parent(q));
    }
  }
}
