/** Where a member of an archive lands: `resolve` in archive.rs. */
module Resolution {
  import opened Paths

  /** How many symlinks one resolution follows. */
  const MAX_HOPS: nat := 40

  /** The symlinks a resolution sees: those the archive has made so far, then the disk's. */
  datatype Links = Links(made: map<Path, string>, disk: map<Path, string>) {
    function Target(p: Path): Option<string> {
      if p in made then Some(made[p])
      else if p in disk then Some(disk[p])
      else None
    }

    predicate IsLink(p: Path) {
      Target(p).Some?
    }

    /** No non-empty prefix of `p`, `p` itself included, is a link. */
    ghost predicate Plain(p: Path) {
      forall k :: 0 < k <= |p| ==> !IsLink(p[..k])
    }
  }

  datatype Outcome = Landed(path: Path, hops: nat) | Climbs | TooMany

  predicate Absolute(t: string) {
    t != "" && t[0] == '/'
  }

  function Parts(t: string): seq<string> {
    Split(t, '/')
  }

  /** The resolution from a given point: `out` is what is resolved so far, `queue` what is
      left to do, first component first. */
  function Run(links: Links, out: Path, queue: seq<string>, hops: nat, follow: bool): Outcome
    requires hops <= MAX_HOPS
    decreases MAX_HOPS - hops, |queue|
  {
    if queue == [] then Landed(out, hops)
    else
      var c, rest := queue[0], queue[1..];
      if c == "" || c == "." then Run(links, out, rest, hops, follow)
      else if c == ".." then
        if out == [] then Climbs else Run(links, out[..|out| - 1], rest, hops, follow)
      else if rest == [] && !follow then Landed(out + [c], hops)
      else
        match links.Target(out + [c])
        case None => Run(links, out + [c], rest, hops, follow)
        case Some(t) =>
          if hops == MAX_HOPS then TooMany
          else Run(links, if Absolute(t) then [] else out, Parts(t) + rest, hops + 1, follow)
  }

  function Resolve(links: Links, path: string, follow: bool): Outcome {
    Run(links, [], Parts(path), 0, follow)
  }

  // ------------------------------------------------------------------ the stack machine

  function Reversed<T>(s: seq<T>): seq<T> {
    if s == [] then [] else Reversed(s[1..]) + [s[0]]
  }

  lemma {:induction false} ReversedAppend<T>(s: seq<T>, t: seq<T>)
    ensures Reversed(s + t) == Reversed(t) + Reversed(s)
  {
    if s == [] {
      assert s + t == t;
    } else {
      ReversedAppend(s[1..], t);
      assert (s + t)[1..] == s[1..] + t;
    }
  }

  lemma {:induction false} ReversedTwice<T>(s: seq<T>)
    ensures Reversed(Reversed(s)) == s
  {
    if s != [] {
      ReversedTwice(s[1..]);
      ReversedAppend(Reversed(s[1..]), [s[0]]);
      assert Reversed([s[0]]) == [s[0]];
    }
  }

  /** The last element of the stack is the first of what is left. */
  lemma ReversedPop<T>(s: seq<T>)
    requires s != []
    ensures Reversed(s) == [s[|s| - 1]] + Reversed(s[..|s| - 1])
  {
    var front, last := s[..|s| - 1], [s[|s| - 1]];
    assert s == front + last;
    ReversedAppend(front, last);
  }

  /** The loop as archive.rs runs it, the queue kept reversed so that a pop takes the next
      component and a link's parts are pushed back last part first. */
  method ResolvePath(links: Links, path: string, follow: bool) returns (r: Outcome)
    ensures r == Resolve(links, path, follow)
  {
    var out: Path := [];
    var queue := Reversed(Parts(path));
    var hops := 0;
    ReversedTwice(Parts(path));
    while queue != []
      invariant hops <= MAX_HOPS
      invariant Run(links, out, Reversed(queue), hops, follow) == Resolve(links, path, follow)
      decreases MAX_HOPS - hops, |queue|
    {
      var c := queue[|queue| - 1];
      ReversedPop(queue);
      queue := queue[..|queue| - 1];
      if c == "" || c == "." {
        continue;
      }
      if c == ".." {
        if out == [] {
          return Climbs;
        }
        out := out[..|out| - 1];
        continue;
      }
      var cand := out + [c];
      if queue == [] && !follow {
        out := cand;
        break;
      }
      match links.Target(cand) {
        case Some(t) =>
          hops := hops + 1;
          if hops > MAX_HOPS {
            assert queue != [] ==> Reversed(queue) != [] by {
              if queue != [] { ReversedPop(queue); }
            }
            return TooMany;
          }
          if Absolute(t) {
            out := [];
          }
          ghost var left := queue;
          queue := queue + Reversed(Parts(t));
          ReversedAppend(left, Reversed(Parts(t)));
          ReversedTwice(Parts(t));
          assert left != [] ==> Reversed(left) != [] by {
            if left != [] { ReversedPop(left); }
          }
        case None =>
          out := cand;
          assert queue != [] ==> Reversed(queue) != [] by {
            if queue != [] { ReversedPop(queue); }
          }
      }
    }
    return Landed(out, hops);
  }
}
