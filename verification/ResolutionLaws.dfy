/** What every resolution guarantees, whatever symlinks the archive and the disk hold. */
module ResolutionLaws {
  import opened Paths
  import opened Resolution

  ghost predicate SlashFree(queue: seq<string>) {
    forall i :: 0 <= i < |queue| ==> '/' !in queue[i]
  }

  lemma PlainSnoc(links: Links, out: Path, c: string)
    requires links.Plain(out) && !links.IsLink(out + [c])
    ensures links.Plain(out + [c])
  {
    forall k | 0 < k <= |out| + 1 ensures !links.IsLink((out + [c])[..k]) {
      assert (out + [c])[..k] == if k <= |out| then out[..k] else out + [c];
    }
  }

  lemma PlainPrefix(links: Links, p: Path, n: nat)
    requires links.Plain(p) && n <= |p|
    ensures links.Plain(p[..n])
  {
    forall k | 0 < k <= n ensures !links.IsLink(p[..n][..k]) {
      assert p[..n][..k] == p[..k];
    }
  }

  lemma {:induction false} RunContained(links: Links, out: Path, queue: seq<string>, hops: nat, follow: bool)
    requires hops <= MAX_HOPS && ProperPath(out) && links.Plain(out) && SlashFree(queue)
    ensures var r := Run(links, out, queue, hops, follow);
      r.Landed? ==>
        && ProperPath(r.path)
        && hops <= r.hops <= MAX_HOPS
        && links.Plain(if follow || r.path == [] then r.path else r.path[..|r.path| - 1])
    decreases MAX_HOPS - hops, |queue|
  {
    if queue != [] {
      var c, rest := queue[0], queue[1..];
      if c == "" || c == "." {
        RunContained(links, out, rest, hops, follow);
      } else if c == ".." {
        if out != [] {
          PlainPrefix(links, out, |out| - 1);
          RunContained(links, out[..|out| - 1], rest, hops, follow);
        }
      } else if rest == [] && !follow {
        assert (out + [c])[..|out|] == out;
      } else {
        match links.Target(out + [c])
        case None =>
          PlainSnoc(links, out, c);
          RunContained(links, out + [c], rest, hops, follow);
        case Some(t) =>
          if hops < MAX_HOPS {
            SplitFields(t, '/');
            RunContained(links, if Absolute(t) then [] else out, Parts(t) + rest, hops + 1, follow);
          }
      }
    } else if out != [] {
      PlainPrefix(links, out, |out| - 1);
    }
  }

  /** A resolution that lands stays in the root, holds only real names, and no directory on
      the way to it is a symlink; followed to the end, neither is the path itself. */
  lemma ResolveContained(links: Links, path: string, follow: bool)
    ensures var r := Resolve(links, path, follow);
      r.Landed? ==>
        && ProperPath(r.path)
        && r.hops <= MAX_HOPS
        && (forall k :: 0 < k < |r.path| ==> !links.IsLink(r.path[..k]))
        && (follow && r.path != [] ==> !links.IsLink(r.path))
  {
    SplitFields(path, '/');
    RunContained(links, [], Parts(path), 0, follow);
    var r := Resolve(links, path, follow);
    if r.Landed? && r.path != [] {
      var p := r.path;
      assert p[..|p|] == p;
      forall k | 0 < k < |p| ensures !links.IsLink(p[..k]) {
        assert p[..|p| - 1][..k] == p[..k];
      }
    }
  }

  /** Names that are no links are walked one by one, without a hop. */
  lemma {:induction false} RunPlain(links: Links, out: Path, p: Path, rest: seq<string>, hops: nat, follow: bool)
    requires hops <= MAX_HOPS && ProperPath(p) && links.Plain(out + p)
    requires rest != [] || follow
    ensures Run(links, out, p + rest, hops, follow) == Run(links, out + p, rest, hops, follow)
    decreases |p|
  {
    if p == [] {
      assert p + rest == rest && out + p == out;
    } else {
      assert Proper(p[0]);
      assert (p + rest)[1..] == p[1..] + rest;
      assert (out + p)[..|out| + 1] == out + [p[0]];
      assert out + [p[0]] + p[1..] == out + p;
      RunPlain(links, out + [p[0]], p[1..], rest, hops, follow);
    }
  }

  /** A path of names that are no links is where it lands. */
  lemma PlainLands(links: Links, p: Path, none: seq<string>, follow: bool)
    requires ProperPath(p) && links.Plain(p) && none == [] && follow
    ensures Run(links, [], p, 0, follow) == Landed(p, 0)
  {
    assert [] + p == p && p + none == p;
    RunPlain(links, [], p, none, 0, follow);
  }

  /** So is one whose last name may be a link that is not followed. */
  lemma NameLands(links: Links, front: Path, c: string, rest: seq<string>)
    requires ProperPath(front) && links.Plain(front) && Proper(c) && rest == [c]
    ensures Run(links, [], front + rest, 0, false) == Landed(front + rest, 0)
  {
    assert [] + front == front;
    RunPlain(links, [], front, rest, 0, false);
    assert rest[1..] == [];
  }

  /** Resolving what a resolution landed on changes nothing and follows nothing. */
  lemma ResolveIdempotent(links: Links, path: string, follow: bool)
    ensures var r := Resolve(links, path, follow);
      r.Landed? ==> Resolve(links, Join(r.path, '/'), follow) == Landed(r.path, 0)
  {
    SplitFields(path, '/');
    RunContained(links, [], Parts(path), 0, follow);
    var r := Resolve(links, path, follow);
    if r.Landed? && r.path != [] {
      SplitJoin(r.path, '/');
      if follow {
        PlainLands(links, r.path, [], follow);
      } else {
        var n := |r.path| - 1;
        assert r.path == r.path[..n] + [r.path[n]];
        NameLands(links, r.path[..n], r.path[n], [r.path[n]]);
      }
    }
  }

  // --------------------------------------------------------------------- composition

  /** Work queued behind other work waits for where that work lands, the first part being
      followed to its end. */
  lemma {:induction false} RunAppend(links: Links, out: Path, first: seq<string>, then_: seq<string>, hops: nat, follow: bool)
    requires hops <= MAX_HOPS && then_ != [] && ProperPath(out) && links.Plain(out) && SlashFree(first)
    ensures var r := Run(links, out, first, hops, true);
      && (r.Landed? ==> r.hops <= MAX_HOPS)
      && Run(links, out, first + then_, hops, follow) ==
         (if r.Landed? then Run(links, r.path, then_, r.hops, follow) else r)
    decreases MAX_HOPS - hops, |first|
  {
    if first == [] {
      assert first + then_ == then_;
    } else {
      var c, rest := first[0], first[1..];
      assert (first + then_)[1..] == rest + then_;
      if c == "" || c == "." {
        RunAppend(links, out, rest, then_, hops, follow);
      } else if c == ".." {
        if out != [] {
          PlainPrefix(links, out, |out| - 1);
          RunAppend(links, out[..|out| - 1], rest, then_, hops, follow);
        }
      } else {
        match links.Target(out + [c])
        case None =>
          PlainSnoc(links, out, c);
          RunAppend(links, out + [c], rest, then_, hops, follow);
        case Some(t) =>
          if hops < MAX_HOPS {
            SplitFields(t, '/');
            assert Parts(t) + rest + then_ == Parts(t) + (rest + then_);
            RunAppend(links, if Absolute(t) then [] else out, Parts(t) + rest, then_, hops + 1, follow);
          }
      }
    }
  }

  /** The hops already spent only count against the budget. */
  lemma {:induction false} RunHops(links: Links, out: Path, queue: seq<string>, spent: nat, hops: nat, follow: bool)
    requires spent + hops <= MAX_HOPS
    ensures var (a, b) := (Run(links, out, queue, spent + hops, follow), Run(links, out, queue, hops, follow));
      && (a.Landed? ==> b.Landed? && a == Landed(b.path, spent + b.hops))
      && (b.Landed? && spent + b.hops <= MAX_HOPS ==> a.Landed?)
      && (a == Climbs ==> b == Climbs)
      && (b.Landed? ==> hops <= b.hops)
    decreases MAX_HOPS - hops - spent, |queue|
  {
    if queue != [] {
      var c, rest := queue[0], queue[1..];
      if c == "" || c == "." {
        RunHops(links, out, rest, spent, hops, follow);
      } else if c == ".." {
        if out != [] {
          RunHops(links, out[..|out| - 1], rest, spent, hops, follow);
        }
      } else if rest == [] && !follow {
      } else {
        match links.Target(out + [c])
        case None =>
          RunHops(links, out + [c], rest, spent, hops, follow);
        case Some(t) =>
          if spent + hops < MAX_HOPS {
            RunHops(links, if Absolute(t) then [] else out, Parts(t) + rest, spent, hops + 1, follow);
          } else if hops < MAX_HOPS {
            RunGrows(links, if Absolute(t) then [] else out, Parts(t) + rest, hops + 1, follow);
          }
      }
    }
  }

  lemma {:induction false} RunGrows(links: Links, out: Path, queue: seq<string>, hops: nat, follow: bool)
    requires hops <= MAX_HOPS
    ensures var r := Run(links, out, queue, hops, follow); r.Landed? ==> hops <= r.hops <= MAX_HOPS
    decreases MAX_HOPS - hops, |queue|
  {
    if queue != [] {
      var c, rest := queue[0], queue[1..];
      if c == "" || c == "." {
        RunGrows(links, out, rest, hops, follow);
      } else if c == ".." {
        if out != [] {
          RunGrows(links, out[..|out| - 1], rest, hops, follow);
        }
      } else if rest == [] && !follow {
      } else {
        match links.Target(out + [c])
        case None => RunGrows(links, out + [c], rest, hops, follow);
        case Some(t) =>
          if hops < MAX_HOPS {
            RunGrows(links, if Absolute(t) then [] else out, Parts(t) + rest, hops + 1, follow);
          }
      }
    }
  }

  lemma ResolveUnder(links: Links, r: Path, q: string, follow: bool)
    requires ProperPath(r) && links.Plain(r)
    ensures Resolve(links, Join(r, '/') + "/" + q, follow) == Run(links, r, Parts(q), 0, follow)
  {
    SplitAppend(Join(r, '/'), q, '/');
    assert Join(r, '/') + ['/'] + q == Join(r, '/') + "/" + q;
    var queue := Parts(Join(r, '/')) + Parts(q);
    if r == [] {
      assert queue[0] == "" && queue[1..] == Parts(q);
    } else {
      SplitJoin(r, '/');
      assert [] + r == r;
      RunPlain(links, [], r, Parts(q), 0, follow);
    }
  }

  lemma ResolveSequence(links: Links, p: string, q: string, follow: bool)
    ensures var half := Resolve(links, p, true);
      && (half.Landed? ==> half.hops <= MAX_HOPS && ProperPath(half.path) && links.Plain(half.path))
      && Resolve(links, p + "/" + q, follow) ==
         (if half.Landed? then Run(links, half.path, Parts(q), half.hops, follow) else half)
  {
    SplitAppend(p, q, '/');
    SplitFields(p, '/');
    assert p + ['/'] + q == p + "/" + q;
    RunAppend(links, [], Parts(p), Parts(q), 0, follow);
    RunContained(links, [], Parts(p), 0, true);
  }

  /** Hops spent before add to those spent after. */
  lemma HopsAdd(links: Links, r: Path, queue: seq<string>, hops: nat, follow: bool, whole: Outcome, other: Outcome)
    requires hops <= MAX_HOPS && whole == Run(links, r, queue, hops, follow) && other == Run(links, r, queue, 0, follow)
    ensures whole.Landed? <==> other.Landed? && hops + other.hops <= MAX_HOPS
    ensures whole.Landed? ==> whole == Landed(other.path, hops + other.hops)
  {
    RunHops(links, r, queue, hops, 0, follow);
    RunGrows(links, r, queue, hops, follow);
  }

  /** Resolving `p/q` is resolving `p` to its end and then `q` from where that landed, and
      the hops add up: the whole lands exactly when both halves do within one budget. */
  lemma ResolveComposes(links: Links, p: string, q: string, follow: bool)
    ensures var whole, half := Resolve(links, p + "/" + q, follow), Resolve(links, p, true);
      && (!half.Landed? ==> whole == half)
      && (half.Landed? ==>
            var other := Resolve(links, Join(half.path, '/') + "/" + q, follow);
            && (whole.Landed? <==> other.Landed? && half.hops + other.hops <= MAX_HOPS)
            && (whole.Landed? ==> whole == Landed(other.path, half.hops + other.hops)))
  {
    ResolveSequence(links, p, q, follow);
    var half := Resolve(links, p, true);
    if half.Landed? {
      ResolveUnder(links, half.path, q, follow);
      HopsAdd(links, half.path, Parts(q), half.hops, follow, Resolve(links, p + "/" + q, follow), Resolve(links, Join(half.path, '/') + "/" + q, follow));
    }
  }
}
