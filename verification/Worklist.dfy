/** What a worklist over a finite graph computes: the least set that holds its seeds and is
    closed under edges. A node the graph has no entry for is one that cannot be read. */
module Worklist {

  type Graph<!K> = map<K, set<K>>

  predicate Edge<K(!new)>(g: Graph<K>, a: K, b: K) {
    a in g && b in g[a]
  }

  /** Reached from the seeds in at most `n` edges. */
  ghost predicate Within<K(!new)>(g: Graph<K>, seeds: set<K>, k: K, n: nat)
    decreases n
  {
    k in seeds || (n > 0 && exists a :: Within(g, seeds, a, n - 1) && Edge(g, a, k))
  }

  ghost predicate Reachable<K(!new)>(g: Graph<K>, seeds: set<K>, k: K) {
    exists n: nat :: Within(g, seeds, k, n)
  }

  ghost predicate ClosedUnder<K(!new)>(g: Graph<K>, s: set<K>) {
    forall a, b :: a in s && Edge(g, a, b) ==> b in s
  }

  lemma SeedReachable<K(!new)>(g: Graph<K>, seeds: set<K>, k: K)
    requires k in seeds
    ensures Reachable(g, seeds, k)
  {
    assert Within(g, seeds, k, 0);
  }

  lemma EdgeReachable<K(!new)>(g: Graph<K>, seeds: set<K>, a: K, b: K)
    requires Reachable(g, seeds, a) && Edge(g, a, b)
    ensures Reachable(g, seeds, b)
  {
    var n: nat :| Within(g, seeds, a, n);
    assert Within(g, seeds, b, n + 1);
  }

  lemma {:induction false} WithinStays<K(!new)>(g: Graph<K>, seeds: set<K>, s: set<K>, k: K, n: nat)
    requires seeds <= s && ClosedUnder(g, s) && Within(g, seeds, k, n)
    ensures k in s
    decreases n
  {
    if k !in seeds {
      var a :| Within(g, seeds, a, n - 1) && Edge(g, a, k);
      WithinStays(g, seeds, s, a, n - 1);
    }
  }

  /** What is reachable is the least set that holds the seeds and is closed under edges. */
  lemma ReachableLeast<K(!new)>(g: Graph<K>, seeds: set<K>, s: set<K>)
    requires seeds <= s && ClosedUnder(g, s)
    ensures forall k :: Reachable(g, seeds, k) ==> k in s
  {
    forall k | Reachable(g, seeds, k) ensures k in s {
      var n: nat :| Within(g, seeds, k, n);
      WithinStays(g, seeds, s, k, n);
    }
  }

  /** What is listed and not queued has been followed. */
  ghost predicate Following<K(!new)>(g: Graph<K>, seen: set<K>, queue: seq<K>) {
    && (forall k :: k in queue ==> k in seen)
    && (forall k :: k in seen && k !in queue ==> Followed(g, seen, k))
  }

  ghost predicate Followed<K(!new)>(g: Graph<K>, seen: set<K>, k: K) {
    k in g && g[k] <= seen
  }

  /** Only what is reachable is listed, and so no more than the graph has. */
  ghost predicate Known<K(!new)>(g: Graph<K>, seeds: set<K>, seen: set<K>) {
    seen <= Universe(g, seeds) && forall k :: k in seen ==> Reachable(g, seeds, k)
  }

  ghost function Universe<K(!new)>(g: Graph<K>, seeds: set<K>): set<K> {
    seeds + set a, b | a in g.Keys && b in g[a] :: b
  }

  lemma KnownMore<K(!new)>(g: Graph<K>, seeds: set<K>, seen: set<K>, a: K, b: K)
    requires Known(g, seeds, seen) && a in seen && Edge(g, a, b)
    ensures Known(g, seeds, seen + {b})
  {
    EdgeReachable(g, seeds, a, b);
  }

  lemma KnownSeeds<K(!new)>(g: Graph<K>, seeds: set<K>)
    ensures Known(g, seeds, seeds)
  {
    forall k | k in seeds ensures Reachable(g, seeds, k) {
      SeedReachable(g, seeds, k);
    }
  }

  lemma StillFollowing<K(!new)>(g: Graph<K>, had: set<K>, rest: seq<K>, k: K, seen: set<K>, queue: seq<K>)
    requires Following(g, had, rest + [k]) && had <= seen && Followed(g, seen, k)
    requires forall q :: q in queue <==> q in rest || (q in seen && q !in had)
    ensures Following(g, seen, queue)
  {
    forall s | s in seen && s !in queue ensures Followed(g, seen, s) {
      if s != k {
        assert s in had && s !in rest + [k];
        assert Followed(g, had, s);
      }
    }
    forall q | q in queue ensures q in seen {
      if q in rest {
        assert q in rest + [k];
      }
    }
  }

  /** With nothing queued, what is listed is the least fixpoint, and all of it can be read. */
  lemma AllFollowed<K(!new)>(g: Graph<K>, seeds: set<K>, seen: set<K>)
    requires seeds <= seen && Following(g, seen, [])
    ensures forall k :: Reachable(g, seeds, k) ==> k in seen && k in g
  {
    forall a, b | a in seen && Edge(g, a, b) ensures b in seen {
      assert Followed(g, seen, a);
    }
    ReachableLeast(g, seeds, seen);
    forall k | k in seen ensures k in g {
      assert Followed(g, seen, k);
    }
  }

  lemma Sizes<K>(a: set<K>, b: set<K>, u: set<K>)
    requires a <= b <= u
    ensures |a| <= |b| <= |u| && (|a| == |b| ==> a == b)
  {
    assert b == a + (b - a) && u == b + (u - b);
    assert |a + (b - a)| == |a| + |b - a|;
    assert |b + (u - b)| == |b| + |u - b|;
  }

  /** What holds of the seeds and along every edge holds of everything reached. */
  lemma ReachableAll<K(!new)>(g: Graph<K>, seeds: set<K>, good: set<K>)
    requires seeds <= good && forall a :: a in g && a in good ==> g[a] <= good
    ensures forall k :: Reachable(g, seeds, k) ==> k in good
  {
    ReachableLeast(g, seeds, good);
  }
}
