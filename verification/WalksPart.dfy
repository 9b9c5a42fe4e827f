/** Where the two walks over one archive part: a hard link to a symlink is a symlink on disk,
    and only the walk that extracts sees it. */
module WalksPart {
  import opened Paths
  import opened Resolution
  import opened Walk
  import opened Disk
  import D = Disk
  import opened Extraction
  import opened ExtractionLaws

  /** A component that is one name. */
  predicate Simple(c: string) {
    Proper(c) && '\n' !in c
  }

  lemma SimpleTidy(c: string)
    requires Simple(c)
    ensures Tidy(c) == Ok(Some(c)) && Parts(c) == [c]
  {
    SplitClean(c, '/');
    assert c[|c| - 1] in c;
    assert c[0] in c;
  }

  /** A name alone lands at itself, followed or not, unless a link is followed. */
  lemma SimpleLands(links: Links, c: string, follow: bool)
    requires Simple(c) && (follow ==> !links.IsLink([c]))
    ensures ResolveOr(links, c, follow) == Ok([c])
  {
    SimpleTidy(c);
    var parts, none: seq<string> := [c], [];
    assert parts[1..] == none && [] + [c] == [c];
    assert Resolution.Run(links, [c], none, 0, follow) == Landed([c], 0);
    assert Resolution.Run(links, [], parts, 0, follow) == Landed([c], 0);
  }

  lemma TwoParts(a: string, c: string)
    requires Simple(a) && Simple(c)
    ensures Tidy(a + ['/'] + c) == Ok(Some(a + ['/'] + c)) && Parts(a + ['/'] + c) == [a, c]
  {
    SplitAppend(a, c, '/');
    SimpleTidy(a);
    SimpleTidy(c);
    var s := a + ['/'] + c;
    assert s[|s| - 1] == c[|c| - 1] && c[|c| - 1] in c;
    assert s[0] == a[0] && a[0] in a;
  }

  /** A file in a directory lands there. */
  lemma PlainLands(links: Links, a: string, c: string)
    requires Simple(a) && Simple(c) && links.Target([a]) == None
    ensures ResolveOr(links, a + ['/'] + c, false) == Ok([a, c])
  {
    TwoParts(a, c);
    var parts, rest := [a, c], [c];
    assert parts[1..] == rest && rest[1..] == [] && [] + [a] == [a] && [a] + [c] == [a, c];
    assert Resolution.Run(links, [a], rest, 0, false) == Landed([a, c], 0);
    assert Resolution.Run(links, [], parts, 0, false) == Resolution.Run(links, [a], rest, 0, false);
  }

  /** In a symlink it lands where that points. */
  lemma LinkLands(links: Links, a: string, t: string, c: string)
    requires Simple(a) && Simple(t) && Simple(c) && links.Target([a]) == Some(t) && links.Target([t]) == None
    ensures ResolveOr(links, a + ['/'] + c, false) == Ok([t, c])
  {
    TwoParts(a, c);
    SimpleTidy(t);
    var parts, rest, more := [a, c], [c], [t, c];
    assert parts[1..] == rest && rest[1..] == [] && more[1..] == rest;
    assert [] + [a] == [a] && [] + [t] == [t] && [t] + [c] == [t, c] && [t] + rest == more;
    assert t[0] in t;
    assert Resolution.Run(links, [t], rest, 1, false) == Landed([t, c], 1);
    assert Resolution.Run(links, [], more, 1, false) == Resolution.Run(links, [t], rest, 1, false);
    assert Resolution.Run(links, [], parts, 0, false) == Resolution.Run(links, [], more, 1, false);
  }

  // ----------------------------------------------------------------------- the archive

  const D0: D.Disk := D.Disk(map[["d"] := D.Dir], map[], 0)

  function LinkRaw(): Raw { Raw(RawKind.Symlink, "a", Some("d"), false, 0x1ED, []) }
  function HardRaw(): Raw { Raw(RawKind.HardLink, "b", Some("a"), false, 0x1ED, []) }
  function FileRaw(): Raw { Raw(Regular, "b" + ['/'] + "x", None, false, 0x1A4, []) }

  const LINK := Member(What.Link("d"), 0x1ED, ["a"])
  const HARD := Member(What.Hard(["a"]), 0x1ED, ["b"])

  function FileIn(dir: string): Member { Member(What.File([]), 0x1A4, [dir, "x"]) }

  lemma Names()
    ensures Simple("a") && Simple("b") && Simple("d") && Simple("x")
    ensures "a" != "b" && "a" != "d" && "b" != "d"
  {
    assert "a"[0] == 'a' && "b"[0] == 'b' && "d"[0] == 'd' && "x"[0] == 'x';
  }

  /** A member at the top of a tree fits, and is all that changes. */
  lemma TopPut(d: D.Disk, m: Member, p: Path)
    requires d.Valid() && |m.path| == 1 && m.path !in d.nodes && Temp(m.path) !in d.nodes
    requires (m.what.Link? && m.what.target != "") || (m.what.Hard? && d.IsLeaf(m.what.to) && m.what.to != Temp(m.path))
    ensures Fits(d, m, {}) && D.Run(d, Steps(d, m, {})) == Some(Put(d, m, {})) && Put(d, m, {}).Valid()
    ensures Put(d, m, {}).nodes == d.nodes[m.path := if m.what.Link? then Node.Link(m.what.target) else d.nodes[m.what.to]]
  {
    assert Parent(m.path) == [];
    StepsPut(d, m, {});
    RunValid(d, Steps(d, m, {}));
    var e := Put(d, m, {});
    forall q ensures PutName(d, m, {}, e, q) {
      PutAt(d, m, {}, q);
    }
  }

  /** The extracting walk over what is left lists these members. */
  ghost predicate Unpacks(d: D.Disk, made: map<Path, string>, raws: seq<Raw>, ms: seq<Member>) {
    var r := Unpack(d, made, raws, true, {}, {});
    r.Ok? && r.value.members == ms
  }

  lemma UnpackOne(d: D.Disk, made: map<Path, string>, raw: Raw, tail: seq<Raw>, m: Member, e: D.Disk, rest: seq<Member>)
    requires Take(d, made, raw) == Ok(Some(m)) && m.path != [] && D.Run(d, Steps(d, m, {})) == Some(e)
    requires Unpacks(e, Noting(made, m), tail, rest)
    ensures Unpacks(d, made, [raw] + tail, [m] + rest)
  {
    var raws := [raw] + tail;
    assert raws[0] == raw && raws[1..] == tail;
  }

  lemma PlanOne(d: D.Disk, made: map<Path, string>, raw: Raw, tail: seq<Raw>, m: Member, rest: seq<Member>)
    requires Take(d, made, raw) == Ok(Some(m)) && Plan(d, Noting(made, m), tail, true) == Ok(rest)
    ensures Plan(d, made, [raw] + tail, true) == Ok([m] + rest)
  {
    var raws := [raw] + tail;
    assert raws[0] == raw && raws[1..] == tail;
  }

  /** The symlink and the hard link to it are taken the same way by both walks. */
  lemma LinkTaken(d: D.Disk)
    requires d == D0
    ensures Take(d, map[], LinkRaw()) == Ok(Some(LINK))
  {
    Names();
    SimpleTidy("a");
    SimpleLands(Links(map[], LinksOn(d)), "a", false);
  }

  lemma HardTaken(d: D.Disk, made: map<Path, string>)
    requires ["b"] !in d.nodes
    ensures Take(d, made, HardRaw()) == Ok(Some(HARD))
  {
    Names();
    SimpleTidy("a");
    SimpleTidy("b");
    SimpleLands(Links(made, LinksOn(d)), "a", false);
    SimpleLands(Links(made, LinksOn(d)), "b", false);
  }

  lemma FileTaken(d: D.Disk, made: map<Path, string>, dir: string)
    requires [dir, "x"] !in d.nodes && ResolveOr(Links(made, LinksOn(d)), "b" + ['/'] + "x", false) == Ok([dir, "x"])
    ensures Take(d, made, FileRaw()) == Ok(Some(FileIn(dir)))
  {
    Names();
    TwoParts("b", "x");
  }

  /** What the first two members leave: two symlinks to one directory. */
  lemma TwoLinks() returns (d1: D.Disk, d2: D.Disk)
    ensures D.Run(D0, Steps(D0, LINK, {})) == Some(d1) && D.Run(d1, Steps(d1, HARD, {})) == Some(d2) && d2.Valid()
    ensures d1.nodes == map[["d"] := D.Dir, ["a"] := Node.Link("d")]
    ensures d2.nodes == map[["d"] := D.Dir, ["a"] := Node.Link("d"), ["b"] := Node.Link("d")]
  {
    Names();
    Temps();
    TopPut(D0, LINK, []);
    d1 := Put(D0, LINK, {});
    TopPut(d1, HARD, []);
    d2 := Put(d1, HARD, {});
  }

  /** Temporary names are longer than these. */
  lemma Temps()
    ensures Temp(["a"]) == [".a.kiry"] && Temp(["b"]) == [".b.kiry"] && Temp(["d", "x"])[1] == ".x.kiry"
    ensures |".a.kiry"| == 7 && |".b.kiry"| == 7
  {
    var a, b, x: Path := ["a"], ["b"], ["d", "x"];
    assert a[|a| - 1] == "a" && b[|b| - 1] == "b" && x[|x| - 1] == "x";
    assert "." + "a" + ".kiry" == ".a.kiry" && "." + "b" + ".kiry" == ".b.kiry" && "." + "x" + ".kiry" == ".x.kiry";
  }

  lemma FilePut(d: D.Disk) returns (e: D.Disk)
    requires d.Valid() && d.nodes == map[["d"] := D.Dir, ["a"] := Node.Link("d"), ["b"] := Node.Link("d")]
    ensures D.Run(d, Steps(d, FileIn("d"), {})) == Some(e)
  {
    var m := FileIn("d");
    assert Parent(m.path) == ["d"] && d.IsDir(["d"]);
    assert |Temp(m.path)| == 2;
    StepsPut(d, m, {});
    e := Put(d, m, {});
  }

  function Archive(): seq<Raw> {
    [LinkRaw()] + ([HardRaw()] + ([FileRaw()] + []))
  }

  function Three(dir: string): seq<Member> {
    [LINK] + ([HARD] + ([FileIn(dir)] + []))
  }

  lemma FileUnpacked(d2: D.Disk, made: map<Path, string>)
    requires d2.Valid() && d2.nodes == map[["d"] := D.Dir, ["a"] := Node.Link("d"), ["b"] := Node.Link("d")]
    requires made == map[["a"] := "d"]
    ensures Unpacks(d2, made, [FileRaw()] + [], [FileIn("d")] + [])
  {
    Names();
    LinkLands(Links(made, LinksOn(d2)), "b", "d", "x");
    FileTaken(d2, made, "d");
    var e := FilePut(d2);
    assert Unpacks(e, Noting(made, FileIn("d")), [], []);
    UnpackOne(d2, made, FileRaw(), [], FileIn("d"), e, []);
  }

  lemma UnpackThree()
    ensures Unpacks(D0, map[], Archive(), Three("d"))
  {
    Names();
    var d1, d2 := TwoLinks();
    var made := Noting(map[], LINK);
    LinkTaken(D0);
    HardTaken(d1, made);
    FileUnpacked(d2, made);
    UnpackOne(d1, made, HardRaw(), [FileRaw()] + [], HARD, d2, [FileIn("d")] + []);
    UnpackOne(D0, map[], LinkRaw(), [HardRaw()] + ([FileRaw()] + []), LINK, d1, [HARD] + ([FileIn("d")] + []));
  }

  lemma PlanThree()
    ensures Plan(D0, map[], Archive(), true) == Ok(Three("b"))
  {
    Names();
    var made := Noting(map[], LINK);
    LinkTaken(D0);
    HardTaken(D0, made);
    PlainLands(Links(made, LinksOn(D0)), "b", "x");
    FileTaken(D0, made, "b");
    assert Plan(D0, Noting(made, FileIn("b")), [], true) == Ok([]);
    PlanOne(D0, made, FileRaw(), [], FileIn("b"), []);
    PlanOne(D0, made, HardRaw(), [FileRaw()] + [], HARD, [FileIn("b")] + []);
    PlanOne(D0, map[], LinkRaw(), [HardRaw()] + ([FileRaw()] + []), LINK, [HARD] + ([FileIn("b")] + []));
  }

  /** A symlink to a directory, a hard link to it, and a file through that: extraction puts the
      file in the directory, and the plan has it somewhere else. */
  lemma LinkedLink()
    ensures Unpacks(D0, map[], Archive(), Three("d")) && Plan(D0, map[], Archive(), true) == Ok(Three("b"))
    ensures Three("d")[2].path == ["d", "x"] && Three("b")[2].path == ["b", "x"]
  {
    UnpackThree();
    PlanThree();
  }
}
