/** What each component of a path means for where the path lands, both sides being texts that
    are resolved: the rules of `resolve` in archive.rs one at a time. */
module Following {
  import opened Paths
  import opened Resolution
  import opened ResolutionLaws

  /** The archive's own symlinks come before those on disk. */
  predicate PointsTo(links: Links, p: Path, t: string) {
    if p in links.made then links.made[p] == t else p in links.disk && links.disk[p] == t
  }

  predicate NoLink(links: Links, p: Path) {
    p !in links.made && p !in links.disk
  }

  /** A name that is one component. */
  predicate OneName(c: string) {
    c != "" && c != "." && c != ".." && '/' !in c
  }

  /** The text a link's target makes of a path: an absolute one starts again at the root, any
      other goes on from the directory the link is in. */
  function Rewritten(r: Path, t: string): string {
    if |t| > 0 && t[0] == '/' then t else Join(r, '/') + "/" + t
  }

  /** `b` after `spent` hops of forty is `a`. */
  ghost predicate Spends(a: Outcome, b: Outcome, spent: nat) {
    && (a.Landed? <==> b.Landed? && spent + b.hops <= 40)
    && (a.Landed? ==> a == Landed(b.path, spent + b.hops))
    && (a.Climbs? ==> b.Climbs?) && (b.TooMany? ==> a.TooMany?)
  }

  /** Resolution is decided from the front: nothing of a path that fails is recovered. */
  lemma FailsEarly(links: Links, p: string, q: string, follow: bool)
    requires !Resolve(links, p, true).Landed?
    ensures Resolve(links, p + "/" + q, follow) == Resolve(links, p, true)
  {
    ResolveSequence(links, p, q, follow);
  }

  lemma OnePart(c: string)
    requires '/' !in c
    ensures Parts(c) == [c]
  {
    SplitClean(c, '/');
  }

  /** The empty path is the root. */
  lemma EmptyLands(links: Links, follow: bool)
    ensures Resolve(links, "", follow) == Landed([], 0)
  {
    OnePart("");
    var parts, none: seq<string> := [""], [];
    assert parts[1..] == none && Run(links, [], none, 0, follow) == Landed([], 0);
  }

  /** A slash in front changes nothing. */
  lemma SlashFirst(links: Links, p: string, follow: bool)
    ensures Resolve(links, "/" + p, follow) == Resolve(links, p, follow)
  {
    PartsOf("", p);
    assert "" + "/" + p == "/" + p;
    OnePart("");
    var parts := [""] + Parts(p);
    assert parts[1..] == Parts(p);
  }

  /** An empty component and a dot stay where they are, and two dots go up, but not out. */
  lemma DotsLand(links: Links, p: string, c: string, follow: bool)
    requires Resolve(links, p, true).Landed? && c in {"", ".", ".."}
    ensures var (r, h) := (Resolve(links, p, true).path, Resolve(links, p, true).hops);
      Resolve(links, p + "/" + c, follow) ==
        if c != ".." then Landed(r, h) else if r == [] then Climbs else Landed(r[..|r| - 1], h)
  {
    ResolveSequence(links, p, c, follow);
    OnePart(c);
    var half := Resolve(links, p, true);
    var parts, none: seq<string> := [c], [];
    assert parts[1..] == none;
    assert Run(links, half.path, none, half.hops, follow) == Landed(half.path, half.hops);
    if half.path != [] {
      var up := half.path[..|half.path| - 1];
      assert Run(links, up, none, half.hops, follow) == Landed(up, half.hops);
    }
  }

  /** A name that is no link is entered; so is the last one, link or not, if it is not to be
      followed. */
  lemma NameEntered(links: Links, p: string, c: string, follow: bool)
    requires Resolve(links, p, true).Landed? && OneName(c)
    requires !follow || NoLink(links, Resolve(links, p, true).path + [c])
    ensures var (r, h) := (Resolve(links, p, true).path, Resolve(links, p, true).hops);
      Resolve(links, p + "/" + c, follow) == Landed(r + [c], h)
  {
    ResolveSequence(links, p, c, follow);
    OnePart(c);
    var half := Resolve(links, p, true);
    var parts, none: seq<string> := [c], [];
    assert parts[1..] == none;
    assert Run(links, half.path + [c], none, half.hops, follow) == Landed(half.path + [c], half.hops);
  }

  /** One step of a resolution that meets a link it follows. */
  lemma OneHop(links: Links, r: Path, c: string, t: string, rest: seq<string>, h: nat, follow: bool, a: Outcome, b: Outcome)
    requires h <= MAX_HOPS && OneName(c) && PointsTo(links, r + [c], t) && (rest != [] || follow)
    requires a == Run(links, r, [c] + rest, h, follow)
    requires b == Run(links, if Absolute(t) then [] else r, Parts(t) + rest, 0, follow)
    ensures Spends(a, b, h + 1)
  {
    var base: Path, queue, parts := if Absolute(t) then [] else r, Parts(t) + rest, [c] + rest;
    assert parts[0] == c && parts[1..] == rest;
    if h < MAX_HOPS {
      assert a == Run(links, base, queue, h + 1, follow);
      RunHops(links, base, queue, h + 1, 0, follow);
      RunGrows(links, base, queue, h + 1, follow);
    }
  }

  /** A link at the end is followed if it is to be: one hop, and then its target. */
  lemma LastFollowed(links: Links, p: string, c: string, t: string)
    requires Resolve(links, p, true).Landed? && OneName(c) && PointsTo(links, Resolve(links, p, true).path + [c], t)
    ensures var (r, h) := (Resolve(links, p, true).path, Resolve(links, p, true).hops);
      Spends(Resolve(links, p + "/" + c, true), Resolve(links, Rewritten(r, t), true), h + 1)
  {
    var half, none: seq<string> := Resolve(links, p, true), [];
    ResolveSequence(links, p, c, true);
    OnePart(c);
    assert [c] + none == [c] && Parts(t) + none == Parts(t);
    if !Absolute(t) {
      ResolveUnder(links, half.path, t, true);
    }
    OneHop(links, half.path, c, t, none, half.hops, true, Resolve(links, p + "/" + c, true), Resolve(links, Rewritten(half.path, t), true));
  }

  /** A link on the way always is. */
  lemma LinkFollowed(links: Links, p: string, c: string, t: string, q: string, follow: bool)
    requires Resolve(links, p, true).Landed? && OneName(c) && PointsTo(links, Resolve(links, p, true).path + [c], t)
    ensures var (r, h) := (Resolve(links, p, true).path, Resolve(links, p, true).hops);
      Spends(Resolve(links, p + "/" + (c + "/" + q), follow), Resolve(links, Rewritten(r, t) + "/" + q, follow), h + 1)
  {
    var half := Resolve(links, p, true);
    ResolveSequence(links, p, c + "/" + q, follow);
    PartsOf(c, q);
    OnePart(c);
    UnderTarget(links, half.path, t, q, follow);
    SplitFields(q, '/');
    OneHop(links, half.path, c, t, Parts(q), half.hops, follow,
           Resolve(links, p + "/" + (c + "/" + q), follow), Resolve(links, Rewritten(half.path, t) + "/" + q, follow));
  }

  lemma PartsOf(a: string, b: string)
    ensures Parts(a + "/" + b) == Parts(a) + Parts(b)
  {
    SplitAppend(a, b, '/');
    assert a + ['/'] + b == a + "/" + b;
  }

  lemma UnderTarget(links: Links, r: Path, t: string, q: string, follow: bool)
    requires ProperPath(r) && links.Plain(r)
    ensures Resolve(links, Rewritten(r, t) + "/" + q, follow) == Run(links, if Absolute(t) then [] else r, Parts(t) + Parts(q), 0, follow)
  {
    PartsOf(t, q);
    if !Absolute(t) {
      ResolveUnder(links, r, t + "/" + q, follow);
      assert Rewritten(r, t) + "/" + q == Join(r, '/') + "/" + (t + "/" + q);
    }
  }
}
