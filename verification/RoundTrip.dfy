/** Installing a package and removing it again gives the files back. */
module RoundTrip {
  import opened Paths
  import opened Disk
  import opened Records
  import opened Extraction
  import opened ExtractionLaws
  import opened Lifecycle
  import opened Ownership
  import opened Sweep

  ghost predicate DistinctLeaves(ms: seq<Member>) {
    forall a, b :: 0 <= a < b < |ms| && !ms[a].what.Dir? && !ms[b].what.Dir? ==> ms[a].path != ms[b].path
  }

  /** An archive for a root that holds none of its files: no leaf shipped twice, none there
      already. */
  ghost predicate Fresh(d0: Disk, ms: seq<Member>) {
    && d0.Valid() && DistinctLeaves(ms)
    && (forall m :: m in ms && !m.what.Dir? ==> m.path !in d0.nodes)
  }

  /** What a leaf entry recorded is what the disk holds; a hard link that names a file of the
      archive holds that file's bytes. */
  ghost predicate Fitting(ms: seq<Member>, d: Disk, e: FileEntry) {
    match e.kind
    case File(c) => d.Bytes(e.path) == Some(c)
    case Link(t) => e.path in d.nodes && d.nodes[e.path] == Node.Link(t)
    case Hard(t) =>
      && d.IsLeaf(e.path)
      && forall n :: n in ms && n.what.File? && n.path == t ==> d.Bytes(e.path) == Some(Flat(n.what.chunks))
    case Dir => true
  }

  /** The entry of member `a`: it holds what was recorded, unless a later member took its name
      away. */
  ghost predicate AccountedBy(ms: seq<Member>, i: nat, keep: set<Path>, d: Disk, e: FileEntry, a: nat) {
    && a < i && a < |ms| && e == Recorded(ms[a], keep)
    && if Overrun(ms, a, i) then !d.IsLeaf(e.path) else Fitting(ms, d, e)
  }

  ghost predicate Accounted(ms: seq<Member>, i: nat, keep: set<Path>, d: Disk, e: FileEntry) {
    exists a: nat :: AccountedBy(ms, i, keep, d, e, a)
  }

  /** Where each name the extraction made was recorded: nothing is recorded before the
      directory it was made in. */
  ghost predicate Tracks(d0: Disk, d: Disk, manifest: seq<FileEntry>, at: map<Path, nat>) {
    && at.Keys == d.nodes.Keys - d0.nodes.Keys
    && (forall p :: p in at ==> at[p] < |manifest| && manifest[at[p]].path == p && (manifest[at[p]].kind.Dir? <==> d.nodes[p].Dir?))
    && (forall p, q :: p in at && q in at && p < q ==> at[p] < at[q])
  }

  /** The state of an extraction after its first `i` members. */
  ghost predicate Tracked(d0: Disk, ms: seq<Member>, i: nat, keep: set<Path>, d: Disk, manifest: seq<FileEntry>, at: map<Path, nat>) {
    && d.Valid()
    && Tracks(d0, d, manifest, at)
    && (forall e :: e in manifest && !e.kind.Dir? ==> Accounted(ms, i, keep, d, e))
  }

  lemma {:induction false} Above(d: Disk, q: Path, p: Path)
    requires d.Valid() && p < q && (q in d.nodes || d.IsDir(q))
    ensures d.IsDir(p)
    decreases |q|
  {
    if p != Parent(q) {
      assert p <= Parent(q);
      Above(d, Parent(q), p);
    }
  }

  lemma {:induction false} MissingOrdered(d: Disk, parent: Path)
    ensures forall a, b :: 0 <= a < b < |Missing(d, parent)| ==> |Missing(d, parent)[a]| < |Missing(d, parent)[b]|
    decreases |parent|
  {
    if parent != [] && !d.IsDir(parent) {
      MissingOrdered(d, Parent(parent));
      MissingSound(d, Parent(parent));
      var up, all := Missing(d, Parent(parent)), Missing(d, parent);
      assert all == up + [parent];
      forall a | 0 <= a < |up| ensures all[a] == up[a] && |up[a]| < |parent| {
        assert up[a] in up && up[a] <= Parent(parent);
      }
    }
  }

  /** A leaf of a tracked disk was there before or is one of the members so far. */
  lemma TrackedLeaf(d0: Disk, ms: seq<Member>, i: nat, keep: set<Path>, d: Disk, manifest: seq<FileEntry>, at: map<Path, nat>, p: Path)
    returns (a: nat)
    requires Tracked(d0, ms, i, keep, d, manifest, at) && d.IsLeaf(p) && p !in d0.nodes
    ensures a < i && a < |ms| && ms[a].path == p && !ms[a].what.Dir?
    ensures Fitting(ms, d, Recorded(ms[a], keep))
  {
    assert p in at;
    var e := manifest[at[p]];
    assert e in manifest && !e.kind.Dir?;
    a :| AccountedBy(ms, i, keep, d, e, a);
  }

  /** The names a member adds, and where its entries put them. */
  function Placing(d: Disk, m: Member, from: nat): map<Path, nat> {
    var dirs := Missing(d, Parent(m.path));
    map p | p in dirs + [m.path] && p !in d.nodes :: from + IndexOf(dirs + [m.path], p)
  }

  function IndexOf(s: seq<Path>, p: Path): (i: nat)
    requires p in s
    ensures i < |s| && s[i] == p
  {
    if s[0] == p then 0 else 1 + IndexOf(s[1..], p)
  }

  lemma LongerLater(all: seq<Path>, a: nat, b: nat)
    requires forall i, j :: 0 <= i < j < |all| ==> |all[i]| < |all[j]|
    requires a < |all| && b < |all| && |all[a]| < |all[b]|
    ensures a < b
  {
  }

  lemma LengthsGrow(d: Disk, m: Member, all: seq<Path>)
    requires m.path != [] && all == Missing(d, Parent(m.path)) + [m.path]
    ensures forall i, j :: 0 <= i < j < |all| ==> |all[i]| < |all[j]|
  {
    var dirs := Missing(d, Parent(m.path));
    MissingOrdered(d, Parent(m.path));
    MissingSound(d, Parent(m.path));
    forall a | 0 <= a < |dirs| ensures |dirs[a]| < |m.path| {
      assert dirs[a] in dirs;
    }
  }

  /** The names of one member are recorded outermost first. */
  lemma PlacingOrdered(d: Disk, m: Member, from: nat)
    requires m.path != []
    ensures var at := Placing(d, m, from);
      forall p, q :: p in at && q in at && p < q ==> at[p] < at[q]
  {
    var all, at := Missing(d, Parent(m.path)) + [m.path], Placing(d, m, from);
    LengthsGrow(d, m, all);
    forall p, q | p in at && q in at && p < q ensures at[p] < at[q] {
      var a, b := IndexOf(all, p), IndexOf(all, q);
      assert all[a] == p && all[b] == q && |p| < |q|;
      LongerLater(all, a, b);
    }
  }

  lemma PathFree(d0: Disk, ms: seq<Member>, i: nat, skip: set<Path>, keep: set<Path>, d: Disk, manifest: seq<FileEntry>, at: map<Path, nat>)
    requires Fresh(d0, ms) && i < |ms| && Tracked(d0, ms, i, keep, d, manifest, at) && Fits(d, ms[i], skip)
    requires forall m :: m in ms && !m.what.Dir? ==> m.path !in skip
    ensures !ms[i].what.Dir? ==> ms[i].path !in d.nodes
  {
    var m := ms[i];
    assert m in ms;
    if !m.what.Dir? && m.path in d.nodes {
      var a := TrackedLeaf(d0, ms, i, keep, d, manifest, at, m.path);
    }
  }

  /** Which names exist after a member, against those before it. */
  ghost predicate Grown(d: Disk, e: Disk, m: Member)
    requires m.path != []
  {
    && KeepsDirs(d, e) && KeepsBytes(d, e)
    && (forall p :: p in d.nodes && p != Temp(m.path) ==> p in e.nodes && e.nodes[p] == d.nodes[p])
    && (forall p :: p in e.nodes && p !in d.nodes ==> p in Missing(d, Parent(m.path)) || p == m.path)
    && (Temp(m.path) in e.nodes ==> Temp(m.path) in d.nodes && d.nodes[Temp(m.path)] == e.nodes[Temp(m.path)] == Node.Dir)
  }

  lemma PutGrows(d: Disk, m: Member, skip: set<Path>)
    requires d.Valid() && Fits(d, m, skip) && (!m.what.Dir? ==> m.path !in skip && m.path !in d.nodes)
    ensures Grown(d, Put(d, m, skip), m)
  {
    var e := Put(d, m, skip);
    TempBeside(m.path);
    PutData(d, m, skip);
    MissingSound(d, Parent(m.path));
    forall p
      ensures p in d.nodes && p != Temp(m.path) ==> p in e.nodes && e.nodes[p] == d.nodes[p]
      ensures p in d.nodes && d.nodes[p].Dir? ==> p in e.nodes && e.nodes[p].Dir?
      ensures p in e.nodes && p !in d.nodes ==> p in Missing(d, Parent(m.path)) || p == m.path
    {
      PutAt(d, m, skip, p);
    }
    PutAt(d, m, skip, Temp(m.path));
    OwnNotMissing(d, Temp(m.path));
  }

  /** What was a directory before still is one. */
  ghost predicate KeepsDirs(d0: Disk, d: Disk) {
    forall p :: p in d0.nodes && d0.nodes[p].Dir? ==> p in d.nodes && d.nodes[p].Dir?
  }

  /** The names made so far that are still there, and the ones a member adds. */
  function Tracking(d0: Disk, e: Disk, at: map<Path, nat>, more: map<Path, nat>): map<Path, nat> {
    (map p | p in at && p in e.nodes :: at[p]) + (map p | p in more && p !in d0.nodes :: more[p])
  }

  lemma {:induction false} TrackMember(d0: Disk, ms: seq<Member>, i: nat, skip: set<Path>, keep: set<Path>, d: Disk, manifest: seq<FileEntry>, at: map<Path, nat>)
    requires Fresh(d0, ms) && i < |ms| && Tracked(d0, ms, i, keep, d, manifest, at) && KeepsDirs(d0, d)
    requires forall m :: m in ms && !m.what.Dir? ==> m.path !in skip
    requires ms[i].path != [] && Run(d, Steps(d, ms[i], skip)).Some?
    ensures var e := Run(d, Steps(d, ms[i], skip)).value;
      && Tracked(d0, ms, i + 1, keep, e, manifest + Entries(d, ms[i], keep), Tracking(d0, e, at, Placing(d, ms[i], |manifest|)))
      && KeepsDirs(d0, e)
  {
    var m := ms[i];
    var e := Run(d, Steps(d, m, skip)).value;
    assert m in ms;
    StepsFit(d, m, skip);
    RunValid(d, Steps(d, m, skip));
    PathFree(d0, ms, i, skip, keep, d, manifest, at);
    PutGrows(d, m, skip);
    TrackNames(d0, d, e, m, skip, keep, manifest, at);
    TrackEntries(d0, ms, i, skip, keep, d, e, manifest, at);
  }

  /** Every name a member adds is recorded where `Placing` says, as what it is. */
  lemma TrackPlaces(d: Disk, m: Member, skip: set<Path>, keep: set<Path>, manifest: seq<FileEntry>, p: Path)
    requires Fits(d, m, skip) && (!m.what.Dir? ==> m.path !in skip) && p in Placing(d, m, |manifest|)
    ensures var (e, now, k) := (Put(d, m, skip), manifest + Entries(d, m, keep), Placing(d, m, |manifest|)[p]);
      p in e.nodes && |manifest| <= k < |now| && now[k].path == p && (now[k].kind.Dir? <==> e.nodes[p].Dir?)
  {
    var dirs := Missing(d, Parent(m.path));
    var k := IndexOf(dirs + [m.path], p);
    var now := manifest + Entries(d, m, keep);
    EntryAt(d, m, keep, k);
    assert now[|manifest| + k] == Entries(d, m, keep)[k];
    PutAt(d, m, skip, p);
    OwnNotMissing(d, m.path);
  }

  lemma EntryAt(d: Disk, m: Member, keep: set<Path>, k: nat)
    requires k <= |Missing(d, Parent(m.path))|
    ensures var (dirs, entries) := (Missing(d, Parent(m.path)), Entries(d, m, keep));
      && |entries| == |dirs| + 1
      && (k < |dirs| ==> dirs[k] in dirs && entries[k].path == dirs[k] && entries[k].kind.Dir?)
      && (k == |dirs| ==> entries[k] == Recorded(m, keep))
  {
  }

  lemma TrackKeys(d: Disk, e: Disk, m: Member, skip: set<Path>, from: nat)
    requires d.Valid() && Fits(d, m, skip) && e == Put(d, m, skip) && (!m.what.Dir? ==> m.path !in skip) && Grown(d, e, m)
    ensures Placing(d, m, from).Keys == e.nodes.Keys - d.nodes.Keys
  {
    var dirs := Missing(d, Parent(m.path));
    forall p | p in dirs + [m.path] && p !in d.nodes ensures p in e.nodes {
      PutAt(d, m, skip, p);
    }
  }

  lemma TrackNames(d0: Disk, d: Disk, e: Disk, m: Member, skip: set<Path>, keep: set<Path>, manifest: seq<FileEntry>, at: map<Path, nat>)
    requires d.Valid() && e.Valid() && Tracks(d0, d, manifest, at)
    requires Fits(d, m, skip) && e == Put(d, m, skip) && (!m.what.Dir? ==> m.path !in skip) && Grown(d, e, m)
    ensures Tracks(d0, e, manifest + Entries(d, m, keep), Tracking(d0, e, at, Placing(d, m, |manifest|)))
  {
    var more := Placing(d, m, |manifest|);
    TrackKeys(d, e, m, skip, |manifest|);
    forall p | p in more ensures PlacedAt(e, manifest, Entries(d, m, keep), more, p) {
      TrackPlaces(d, m, skip, keep, manifest, p);
    }
    PlacingOrdered(d, m, |manifest|);
    TrackJoin(d0, d, e, m, manifest, Entries(d, m, keep), at, more);
  }

  /** An added name's entry is among the added ones, and is what the name holds. */
  ghost predicate PlacedAt(e: Disk, manifest: seq<FileEntry>, mine: seq<FileEntry>, more: map<Path, nat>, p: Path)
    requires p in more
  {
    && p in e.nodes && |manifest| <= more[p] < |manifest| + |mine|
    && mine[more[p] - |manifest|].path == p && (mine[more[p] - |manifest|].kind.Dir? <==> e.nodes[p].Dir?)
  }

  lemma TrackJoin(d0: Disk, d: Disk, e: Disk, m: Member, manifest: seq<FileEntry>, mine: seq<FileEntry>, at: map<Path, nat>, more: map<Path, nat>)
    requires d.Valid() && e.Valid() && Tracks(d0, d, manifest, at) && m.path != [] && Grown(d, e, m)
    requires more.Keys == e.nodes.Keys - d.nodes.Keys
    requires forall p :: p in more ==> PlacedAt(e, manifest, mine, more, p)
    requires forall p, q :: p in more && q in more && p < q ==> more[p] < more[q]
    ensures Tracks(d0, e, manifest + mine, Tracking(d0, e, at, more))
  {
    var both := Tracking(d0, e, at, more);
    JoinKeys(d0, d, e, at, more);
    JoinEntries(d0, d, e, m, manifest, mine, at, more);
    forall p, q | p in both && q in both && p < q ensures both[p] < both[q] {
      JoinOrder(d, at, more, p, q);
      assert q in more && p !in more ==> at[p] < |manifest| && PlacedAt(e, manifest, mine, more, q);
    }
  }

  lemma JoinEntries(d0: Disk, d: Disk, e: Disk, m: Member, manifest: seq<FileEntry>, mine: seq<FileEntry>, at: map<Path, nat>, more: map<Path, nat>)
    requires Tracks(d0, d, manifest, at) && m.path != [] && Grown(d, e, m)
    requires more.Keys == e.nodes.Keys - d.nodes.Keys && forall p :: p in more ==> PlacedAt(e, manifest, mine, more, p)
    ensures var (both, now) := (Tracking(d0, e, at, more), manifest + mine);
      forall p :: p in both ==> both[p] < |now| && now[both[p]].path == p && (now[both[p]].kind.Dir? <==> e.nodes[p].Dir?)
  {
    var both, now := Tracking(d0, e, at, more), manifest + mine;
    JoinKeys(d0, d, e, at, more);
    forall p | p in both
      ensures both[p] < |now| && now[both[p]].path == p && (now[both[p]].kind.Dir? <==> e.nodes[p].Dir?)
    {
      if p in more {
        assert PlacedAt(e, manifest, mine, more, p);
        assert now[more[p]] == mine[more[p] - |manifest|];
      } else {
        assert now[at[p]] == manifest[at[p]];
      }
    }
  }

  lemma JoinKeys(d0: Disk, d: Disk, e: Disk, at: map<Path, nat>, more: map<Path, nat>)
    requires at.Keys == d.nodes.Keys - d0.nodes.Keys && more.Keys == e.nodes.Keys - d.nodes.Keys
    ensures var both := Tracking(d0, e, at, more);
      && both.Keys == e.nodes.Keys - d0.nodes.Keys
      && forall p :: p in both ==> both[p] == if p in more then more[p] else at[p]
  {
  }

  lemma JoinOrder(d: Disk, at: map<Path, nat>, more: map<Path, nat>, p: Path, q: Path)
    requires d.Valid() && more.Keys !! d.nodes.Keys && [] !in more && at.Keys <= d.nodes.Keys
    requires (p in at || p in more) && (q in at || q in more) && p < q
    ensures q in more || (p in at && q in at && p !in more)
  {
    if q in at {
      Above(d, q, p);
    }
  }

  /** A later member leaves a leaf entry accounted for. */
  lemma StillAccounted(ms: seq<Member>, i: nat, keep: set<Path>, d: Disk, e: Disk, x: FileEntry)
    requires d.Valid() && i < |ms| && ms[i].path != [] && Grown(d, e, ms[i]) && DistinctLeaves(ms)
    requires Accounted(ms, i, keep, d, x) && !x.kind.Dir? && (!ms[i].what.Dir? ==> ms[i].path !in d.nodes)
    requires forall p :: e.IsLeaf(p) && !d.IsLeaf(p) ==> p == ms[i].path && !ms[i].what.Dir?
    ensures Accounted(ms, i + 1, keep, e, x)
  {
    var a: nat :| AccountedBy(ms, i, keep, d, x, a);
    OverrunMore(ms, a, i);
    if !Overrun(ms, a, i) && Temp(ms[i].path) != x.path {
      StillFitting(ms, d, e, x);
    }
    assert AccountedBy(ms, i + 1, keep, e, x, a);
  }

  lemma OverrunMore(ms: seq<Member>, a: nat, i: nat)
    requires a < i < |ms| && ms[i].path != []
    ensures Overrun(ms, a, i + 1) <==> Overrun(ms, a, i) || Temp(ms[i].path) == ms[a].path
  {
  }

  lemma StillFitting(ms: seq<Member>, d: Disk, e: Disk, x: FileEntry)
    requires d.Valid() && Fitting(ms, d, x) && !x.kind.Dir? && KeepsBytes(d, e)
    requires x.path in d.nodes ==> x.path in e.nodes && e.nodes[x.path] == d.nodes[x.path]
    ensures Fitting(ms, e, x)
  {
  }

  /** A hard link made now holds the bytes of the file it names. */
  lemma LinkFits(d0: Disk, ms: seq<Member>, i: nat, skip: set<Path>, keep: set<Path>, d: Disk, manifest: seq<FileEntry>, at: map<Path, nat>)
    requires Fresh(d0, ms) && i < |ms| && Tracked(d0, ms, i, keep, d, manifest, at) && Fits(d, ms[i], skip) && ms[i].what.Hard?
    ensures forall n :: n in ms && n.what.File? && n.path == ms[i].what.to ==> d.Bytes(ms[i].what.to) == Some(Flat(n.what.chunks))
  {
    forall n | n in ms && n.what.File? && n.path == ms[i].what.to ensures d.Bytes(n.path) == Some(Flat(n.what.chunks)) {
      var a := TrackedLeaf(d0, ms, i, keep, d, manifest, at, n.path);
      var c :| 0 <= c < |ms| && ms[c] == n;
      assert a == c;
    }
  }

  lemma TrackEntries(d0: Disk, ms: seq<Member>, i: nat, skip: set<Path>, keep: set<Path>, d: Disk, e: Disk, manifest: seq<FileEntry>, at: map<Path, nat>)
    requires Fresh(d0, ms) && i < |ms| && Tracked(d0, ms, i, keep, d, manifest, at)
    requires Fits(d, ms[i], skip) && e == Put(d, ms[i], skip) && (!ms[i].what.Dir? ==> ms[i].path !in skip)
    requires Grown(d, e, ms[i]) && (!ms[i].what.Dir? ==> ms[i].path !in d.nodes)
    ensures forall x :: x in manifest + Entries(d, ms[i], keep) && !x.kind.Dir? ==> Accounted(ms, i + 1, keep, e, x)
  {
    var m := ms[i];
    MemberLeaves(d, m, skip);
    forall x | x in manifest && !x.kind.Dir? ensures Accounted(ms, i + 1, keep, e, x) {
      StillAccounted(ms, i, keep, d, e, x);
    }
    var r := Recorded(m, keep);
    if !m.what.Dir? {
      if m.what.Hard? { LinkFits(d0, ms, i, skip, keep, d, manifest, at); }
      MemberFitting(ms, d, m, skip, keep);
      assert AccountedBy(ms, i + 1, keep, e, r, i);
    }
    assert forall x :: x in Entries(d, m, keep) && !x.kind.Dir? ==> x == r;
  }

  /** The only leaf a member adds is its own. */
  lemma MemberLeaves(d: Disk, m: Member, skip: set<Path>)
    requires Fits(d, m, skip)
    ensures forall p :: Put(d, m, skip).IsLeaf(p) && !d.IsLeaf(p) ==> p == m.path && !m.what.Dir?
  {
    forall p | Put(d, m, skip).IsLeaf(p) && !d.IsLeaf(p) ensures p == m.path && !m.what.Dir? {
      PutAt(d, m, skip, p);
    }
  }

  lemma MemberFitting(ms: seq<Member>, d: Disk, m: Member, skip: set<Path>, keep: set<Path>)
    requires d.Valid() && Fits(d, m, skip) && !m.what.Dir? && m.path !in skip
    requires m.what.Hard? ==> forall n :: n in ms && n.what.File? && n.path == m.what.to ==> d.Bytes(m.what.to) == Some(Flat(n.what.chunks))
    ensures Fitting(ms, Put(d, m, skip), Recorded(m, keep))
  {
    PutAt(d, m, skip, m.path);
    PutData(d, m, skip);
  }

  lemma {:induction false} ExtractTracks(d0: Disk, ms: seq<Member>, i: nat, skip: set<Path>, keep: set<Path>, d: Disk, manifest: seq<FileEntry>, at: map<Path, nat>)
    returns (end: map<Path, nat>)
    requires Fresh(d0, ms) && i <= |ms| && Tracked(d0, ms, i, keep, d, manifest, at) && KeepsDirs(d0, d)
    requires forall m :: m in ms && !m.what.Dir? ==> m.path !in skip
    requires Extract(d, ms[i..], skip, keep).Some?
    ensures var x := Extract(d, ms[i..], skip, keep).value;
      Tracked(d0, ms, |ms|, keep, x.disk, manifest + x.manifest, end) && KeepsDirs(d0, x.disk)
    decreases |ms| - i
  {
    if i == |ms| {
      end := at;
      assert ms[i..] == [] && manifest + [] == manifest;
    } else {
      ExtractStep(d, ms, i, skip, keep);
      var e, mine := Run(d, Steps(d, ms[i], skip)).value, Entries(d, ms[i], keep);
      TrackMember(d0, ms, i, skip, keep, d, manifest, at);
      var so, where := manifest + mine, Tracking(d0, e, at, Placing(d, ms[i], |manifest|));
      end := ExtractTracks(d0, ms, i + 1, skip, keep, e, so, where);
      var rest := Extract(e, ms[i + 1..], skip, keep).value.manifest;
      ConcatAssociates(manifest, mine, rest);
    }
  }

  lemma ConcatAssociates<T>(a: seq<T>, b: seq<T>, c: seq<T>)
    ensures a + b + c == a + (b + c)
  {
  }

  lemma ExtractStep(d: Disk, ms: seq<Member>, i: nat, skip: set<Path>, keep: set<Path>)
    requires i < |ms| && Extract(d, ms[i..], skip, keep).Some?
    ensures ms[i].path != [] && Run(d, Steps(d, ms[i], skip)).Some?
    ensures var next := Extract(Run(d, Steps(d, ms[i], skip)).value, ms[i + 1..], skip, keep);
      && next.Some?
      && Extract(d, ms[i..], skip, keep) == Some(Extracted(next.value.disk, Entries(d, ms[i], keep) + next.value.manifest))
  {
    assert ms[i..][0] == ms[i] && ms[i..][1..] == ms[i + 1..];
  }

  // --------------------------------------------------------------------------- removal

  lemma {:induction false} SumsFrom(all: seq<FileEntry>, p: Path)
    ensures p in Sums(all) <==> exists e :: e in all && e.kind.File? && e.path == p
    ensures p in Sums(all) ==> exists e :: e in all && e.kind.File? && e.path == p && e.kind.sum == Sums(all)[p]
  {
    if all != [] {
      var front, last := all[..|all| - 1], all[|all| - 1];
      SumsFrom(front, p);
      assert all == front + [last];
    }
  }

  /** A hard link names a file of the archive. */
  ghost predicate LinksFile(ms: seq<Member>, m: Member)
    requires m.what.Hard?
  {
    exists n :: n in ms && n.what.File? && n.path == m.what.to
  }

  /** Every hard link names a file of the archive, or loses its own name to a later member's
      temporary file. */
  ghost predicate NoStrays(ms: seq<Member>) {
    forall a :: 0 <= a < |ms| && ms[a].what.Hard? ==> LinksFile(ms, ms[a]) || Overrun(ms, a, |ms|)
  }

  /** What removal looks up for a leaf is what the leaf holds, for a hard link through the file
      of the archive it names. */
  lemma FittingMatches(ms: seq<Member>, keep: set<Path>, d: Disk, manifest: seq<FileEntry>, e: FileEntry)
    requires forall x :: x in manifest && !x.kind.Dir? ==> Accounted(ms, |ms|, keep, d, x)
    requires forall m :: m in ms ==> Recorded(m, keep) in manifest
    requires DistinctLeaves(ms) && e in manifest && Fitting(ms, d, e) && !e.kind.Dir?
    requires e.kind.Hard? ==> exists n :: n in ms && n.what.File? && n.path == e.kind.to
    ensures Matches(d, e, Sums(manifest))
  {
    if e.kind.Hard? {
      var t := e.kind.to;
      SumsFrom(manifest, t);
      var n :| n in ms && n.what.File? && n.path == t;
      assert Recorded(n, keep) in manifest;
      var f :| f in manifest && f.kind.File? && f.path == t && f.kind.sum == Sums(manifest)[t];
      var b: nat :| AccountedBy(ms, |ms|, keep, d, f, b);
      assert ms[b] in ms && ms[b].what.File?;
    }
  }

  /** `PROTECTED` holds every directory above one it holds. */
  lemma ProtectedAbove(p: Path)
    requires p in PROTECTED
    ensures Parent(p) in PROTECTED
  {
    assert forall c: string :: ["usr", c][..1] == ["usr"];
    assert |p| <= 2 && (|p| == 2 ==> p == ["usr", p[1]]);
    assert |p| == 1 ==> Parent(p) == [];
  }

  /** What is left once the entries from `k` on have been taken back. */
  ghost predicate TakenBack(d0: Disk, d: Disk, s: Disk, at: map<Path, nat>, k: nat) {
    && s.Valid() && s.data == d.data
    && (forall p :: p in s.nodes ==> p in d.nodes && s.nodes[p] == d.nodes[p])
    && (forall p :: p in at && at[p] >= k && p in s.nodes ==> p in PROTECTED && d.nodes[p].Dir?)
  }

  /** What the manifest records of a leaf that is there is what is there. */
  ghost predicate AllMatch(d: Disk, manifest: seq<FileEntry>) {
    forall e :: e in manifest && !e.kind.Dir? && d.IsLeaf(e.path) ==> Matches(d, e, Sums(manifest))
  }

  /** By the time a directory made by the extraction is reached, nothing is left in it. */
  lemma EmptiedBefore(d0: Disk, d: Disk, s: Disk, manifest: seq<FileEntry>, at: map<Path, nat>, p: Path)
    requires d0.Valid() && Tracks(d0, d, manifest, at) && p in at && p !in PROTECTED
    requires TakenBack(d0, d, s, at, at[p] + 1)
    ensures s.Empty(p)
  {
    forall c | c in s.nodes && c != [] && Parent(c) == p ensures false {
      assert c !in d0.nodes;
      assert p < c && c in at;
      ProtectedAbove(c);
    }
  }

  /** The entry of a name the extraction made takes it back, but for a protected directory. */
  lemma TakenHere(d0: Disk, ms: seq<Member>, keep: set<Path>, d: Disk, manifest: seq<FileEntry>, at: map<Path, nat>, s: Swept, p: Path)
    requires d0.Valid() && Tracked(d0, ms, |ms|, keep, d, manifest, at) && p in at && p in s.disk.nodes
    requires AllMatch(d, manifest)
    requires TakenBack(d0, d, s.disk, at, at[p] + 1)
    requires p in UnlinkOne(s, manifest[at[p]], Sums(manifest)).disk.nodes
    ensures p in PROTECTED && d.nodes[p].Dir?
  {
    var e, sums := manifest[at[p]], Sums(manifest);
    assert e.path == p && e in manifest && s.disk.IsDir(Parent(p));
    if e.kind.Dir? && p !in PROTECTED {
      EmptiedBefore(d0, d, s.disk, manifest, at, p);
    }
    assert !e.kind.Dir? ==> d.IsLeaf(p) && Matches(s.disk, e, sums);
  }

  /** One more entry taken back. */
  lemma TakenMore(d0: Disk, d: Disk, s: Disk, r: Disk, at: map<Path, nat>, k: nat)
    requires TakenBack(d0, d, s, at, k + 1) && r.Valid() && r.data == s.data
    requires forall p :: p in r.nodes ==> p in s.nodes && r.nodes[p] == s.nodes[p]
    requires forall p :: p in at && at[p] == k && p in r.nodes ==> p in PROTECTED && d.nodes[p].Dir?
    ensures TakenBack(d0, d, r, at, k)
  {
  }

  lemma TakeOne(d0: Disk, ms: seq<Member>, keep: set<Path>, d: Disk, manifest: seq<FileEntry>, at: map<Path, nat>, s: Swept, k: nat)
    requires d0.Valid() && Tracked(d0, ms, |ms|, keep, d, manifest, at) && k < |manifest|
    requires AllMatch(d, manifest)
    requires TakenBack(d0, d, s.disk, at, k + 1)
    ensures TakenBack(d0, d, UnlinkOne(s, manifest[k], Sums(manifest)).disk, at, k)
  {
    var r := UnlinkOne(s, manifest[k], Sums(manifest)).disk;
    UnlinkOneSweeps(s, manifest[k], Sums(manifest));
    forall p | p in at && at[p] == k && p in r.nodes ensures p in PROTECTED && d.nodes[p].Dir? {
      TakenHere(d0, ms, keep, d, manifest, at, s, p);
    }
    TakenMore(d0, d, s.disk, r, at, k);
  }

  lemma UnlinkStep(s: Swept, manifest: seq<FileEntry>, l: nat, k: nat, sums: map<Path, Content>)
    requires l < |manifest| && k == l + 1
    ensures Unlink(s, manifest[..k], sums) == Unlink(UnlinkOne(s, manifest[l], sums), manifest[..l], sums)
  {
    var front := manifest[..k];
    assert front[..l] == manifest[..l] && front[l] == manifest[l];
  }

  lemma UnlinkNone(s: Swept, manifest: seq<FileEntry>, sums: map<Path, Content>)
    ensures Unlink(s, manifest[..0], sums) == s
  {
    assert manifest[..0] == [];
  }

  lemma {:induction false} TakeAll(d0: Disk, ms: seq<Member>, keep: set<Path>, d: Disk, manifest: seq<FileEntry>, at: map<Path, nat>, s: Swept, k: nat)
    requires d0.Valid() && Tracked(d0, ms, |ms|, keep, d, manifest, at) && k <= |manifest|
    requires AllMatch(d, manifest)
    requires TakenBack(d0, d, s.disk, at, k)
    ensures TakenBack(d0, d, Unlink(s, manifest[..k], Sums(manifest)).disk, at, 0)
    decreases k
  {
    if k == 0 {
      UnlinkNone(s, manifest, Sums(manifest));
    } else {
      var l: nat := k - 1;
      UnlinkStep(s, manifest, l, k, Sums(manifest));
      TakeOne(d0, ms, keep, d, manifest, at, s, l);
      TakeAll(d0, ms, keep, d, manifest, at, UnlinkOne(s, manifest[l], Sums(manifest)), l);
    }
  }

  /** What a root looks like after a package came and went. */
  ghost predicate GivenBack(d0: Disk, r: Disk) {
    && (forall p :: r.IsLeaf(p) ==> d0.IsLeaf(p))
    && (forall p :: p in r.nodes && p !in d0.nodes ==> p in PROTECTED)
  }

  /** No leaf of the old root goes, nor any directory above one. */
  ghost predicate NothingGone(d0: Disk, r: Disk) {
    && r.Valid() && KeepsBytes(d0, r)
    && (forall p :: d0.IsLeaf(p) ==> SameName(d0, r, p))
    && (forall p, q :: d0.IsLeaf(q) && p < q ==> r.IsDir(p))
  }

  lemma {:induction false} MembersRecorded(d: Disk, ms: seq<Member>, skip: set<Path>, keep: set<Path>)
    requires Extract(d, ms, skip, keep).Some?
    ensures forall m :: m in ms ==> Recorded(m, keep) in Extract(d, ms, skip, keep).value.manifest
    decreases |ms|
  {
    if ms != [] {
      MembersRecorded(Run(d, Steps(d, ms[0], skip)).value, ms[1..], skip, keep);
      var mine := Entries(d, ms[0], keep);
      assert mine[|mine| - 1] == Recorded(ms[0], keep);
      assert Recorded(ms[0], keep) in mine;
    }
  }

  lemma ExtractTracked(d0: Disk, ms: seq<Member>, skip: set<Path>, keep: set<Path>) returns (at: map<Path, nat>)
    requires Fresh(d0, ms) && Extract(d0, ms, skip, keep).Some?
    requires forall m :: m in ms && !m.what.Dir? ==> m.path !in skip
    ensures var x := Extract(d0, ms, skip, keep).value;
      Tracked(d0, ms, |ms|, keep, x.disk, x.manifest, at) && KeepsDirs(d0, x.disk)
  {
    assert ms[0..] == ms;
    at := ExtractTracks(d0, ms, 0, skip, keep, d0, [], map[]);
    var m := Extract(d0, ms, skip, keep).value.manifest;
    assert [] + m == m;
  }

  /** The disk once a fresh archive has come and gone. */
  function Gone(d0: Disk, ms: seq<Member>, skip: set<Path>, keep: set<Path>): Disk
    requires Extract(d0, ms, skip, keep).Some?
  {
    var x := Extract(d0, ms, skip, keep).value;
    Unlink(Swept(x.disk, NOTHING), x.manifest, Sums(x.manifest)).disk
  }

  /** No old leaf stands where a member's temporary file goes. */
  ghost predicate TempsFree(d0: Disk, ms: seq<Member>) {
    forall m :: m in ms && m.path != [] ==> !d0.IsLeaf(Temp(m.path))
  }

  /** Taking a fresh archive back leaves the old leaves where they were, whatever it held,
      exactly when none of them stood where a temporary file goes. */
  lemma UnlinkKeepsOld(d0: Disk, ms: seq<Member>, skip: set<Path>, keep: set<Path>)
    requires Fresh(d0, ms) && Extract(d0, ms, skip, keep).Some?
    requires forall m :: m in ms && !m.what.Dir? ==> m.path !in skip
    ensures NothingGone(d0, Gone(d0, ms, skip, keep)) <==> TempsFree(d0, ms)
  {
    var x, r := Extract(d0, ms, skip, keep).value, Gone(d0, ms, skip, keep);
    var at := ExtractTracked(d0, ms, skip, keep);
    UnlinkSweeps(Swept(x.disk, NOTHING), x.manifest, Sums(x.manifest));
    if TempsFree(d0, ms) {
      ExtractBytes(d0, ms, skip, keep);
      forall p | d0.IsLeaf(p) ensures SameName(d0, r, p) {
        ExtractKeeps(d0, ms, skip, keep, p);
        OldLeafStays(d0, ms, keep, x, r, p);
      }
      forall p, q | d0.IsLeaf(q) && p < q ensures r.IsDir(p) {
        assert SameName(d0, r, q);
        Above(r, q, p);
      }
    } else {
      var m :| m in ms && m.path != [] && d0.IsLeaf(Temp(m.path));
      ExtractClears(d0, ms, skip, keep, Temp(m.path));
      assert !SameName(d0, r, Temp(m.path));
    }
  }

  lemma OldLeafStays(d0: Disk, ms: seq<Member>, keep: set<Path>, x: Extracted, r: Disk, p: Path)
    requires Fresh(d0, ms) && d0.IsLeaf(p) && SameName(d0, x.disk, p)
    requires forall e :: e in x.manifest && !e.kind.Dir? ==> Accounted(ms, |ms|, keep, x.disk, e)
    requires SweptTo(x.disk, r, x.manifest, Sums(x.manifest))
    ensures SameName(d0, r, p)
  {
    forall e | e in x.manifest && !e.kind.Dir? ensures e.path !in d0.nodes {
      var a: nat :| AccountedBy(ms, |ms|, keep, x.disk, e, a);
      assert ms[a] in ms;
    }
  }

  lemma {:induction false} ExtractBytes(d: Disk, ms: seq<Member>, skip: set<Path>, keep: set<Path>)
    requires d.Valid() && Extract(d, ms, skip, keep).Some?
    ensures KeepsBytes(d, Extract(d, ms, skip, keep).value.disk)
    decreases |ms|
  {
    if ms != [] {
      StepsFit(d, ms[0], skip);
      RunValid(d, Steps(d, ms[0], skip));
      PutData(d, ms[0], skip);
      ExtractBytes(Put(d, ms[0], skip), ms[1..], skip, keep);
    }
  }

  /** Without stray links every leaf the archive left matches its entry. */
  lemma LeavesMatch(d0: Disk, ms: seq<Member>, keep: set<Path>, d: Disk, manifest: seq<FileEntry>, at: map<Path, nat>, e: FileEntry)
    requires DistinctLeaves(ms) && NoStrays(ms) && Tracked(d0, ms, |ms|, keep, d, manifest, at)
    requires forall m :: m in ms ==> Recorded(m, keep) in manifest
    requires e in manifest && !e.kind.Dir? && d.IsLeaf(e.path)
    ensures Matches(d, e, Sums(manifest))
  {
    var a: nat :| AccountedBy(ms, |ms|, keep, d, e, a);
    assert e.kind.Hard? ==> LinksFile(ms, ms[a]);
    FittingMatches(ms, keep, d, manifest, e);
  }

  lemma LeavesAllMatch(d0: Disk, ms: seq<Member>, skip: set<Path>, keep: set<Path>, at: map<Path, nat>)
    requires Fresh(d0, ms) && Extract(d0, ms, skip, keep).Some? && NoStrays(ms)
    requires var x := Extract(d0, ms, skip, keep).value; Tracked(d0, ms, |ms|, keep, x.disk, x.manifest, at)
    ensures var x := Extract(d0, ms, skip, keep).value; AllMatch(x.disk, x.manifest)
  {
    var x := Extract(d0, ms, skip, keep).value;
    MembersRecorded(d0, ms, skip, keep);
    forall e | e in x.manifest && !e.kind.Dir? && x.disk.IsLeaf(e.path) ensures Matches(x.disk, e, Sums(x.manifest)) {
      LeavesMatch(d0, ms, keep, x.disk, x.manifest, at, e);
    }
  }

  /** Without stray links everything the archive made goes again. */
  lemma UnlinkGivesBack(d0: Disk, ms: seq<Member>, skip: set<Path>, keep: set<Path>)
    requires Fresh(d0, ms) && Extract(d0, ms, skip, keep).Some? && NoStrays(ms)
    requires forall m :: m in ms && !m.what.Dir? ==> m.path !in skip
    ensures GivenBack(d0, Gone(d0, ms, skip, keep))
  {
    var x := Extract(d0, ms, skip, keep).value;
    var d, manifest := x.disk, x.manifest;
    var at := ExtractTracked(d0, ms, skip, keep);
    LeavesAllMatch(d0, ms, skip, keep, at);
    assert manifest[..|manifest|] == manifest;
    TakeAll(d0, ms, keep, d, manifest, at, Swept(d, NOTHING), |manifest|);
    TakenGivesBack(d0, d, manifest, at, Gone(d0, ms, skip, keep));
  }

  lemma TakenGivesBack(d0: Disk, d: Disk, manifest: seq<FileEntry>, at: map<Path, nat>, r: Disk)
    requires Tracks(d0, d, manifest, at) && KeepsDirs(d0, d) && TakenBack(d0, d, r, at, 0)
    ensures GivenBack(d0, r)
  {
    forall p | p in r.nodes && p !in d0.nodes ensures p in PROTECTED && r.nodes[p].Dir? {
      assert p in at;
    }
  }

  /** A hard link to anything but a file of its own archive outlives its package, unless a
      later member takes its name. */
  lemma StrayLinkStays(d0: Disk, ms: seq<Member>, skip: set<Path>, keep: set<Path>, a: nat)
    requires Fresh(d0, ms) && Extract(d0, ms, skip, keep).Some?
    requires forall n :: n in ms && !n.what.Dir? ==> n.path !in skip
    requires a < |ms| && ms[a].what.Hard? && !LinksFile(ms, ms[a]) && !Overrun(ms, a, |ms|)
    ensures Gone(d0, ms, skip, keep).IsLeaf(ms[a].path) && !d0.IsLeaf(ms[a].path)
  {
    var x, m := Extract(d0, ms, skip, keep).value, ms[a];
    var at := ExtractTracked(d0, ms, skip, keep);
    MembersRecorded(d0, ms, skip, keep);
    StrayThere(d0, ms, keep, x, at, a);
    UnlinkSweeps(Swept(x.disk, NOTHING), x.manifest, Sums(x.manifest));
    StrayUntaken(ms, keep, x, Gone(d0, ms, skip, keep), a);
    assert m in ms;
  }

  lemma StrayUntaken(ms: seq<Member>, keep: set<Path>, x: Extracted, r: Disk, a: nat)
    requires DistinctLeaves(ms) && forall e :: e in x.manifest && !e.kind.Dir? ==> Accounted(ms, |ms|, keep, x.disk, e)
    requires a < |ms| && ms[a].what.Hard? && !LinksFile(ms, ms[a]) && x.disk.IsLeaf(ms[a].path)
    requires SweptTo(x.disk, r, x.manifest, Sums(x.manifest))
    ensures r.IsLeaf(ms[a].path)
  {
    forall e | e in x.manifest && e.path == ms[a].path ensures !Takes(x.disk, e, Sums(x.manifest)) {
      if !e.kind.Dir? {
        StrayUnmatched(ms, keep, x.disk, x.manifest, a, e);
      }
    }
  }

  lemma StrayThere(d0: Disk, ms: seq<Member>, keep: set<Path>, x: Extracted, at: map<Path, nat>, a: nat)
    requires DistinctLeaves(ms) && Tracked(d0, ms, |ms|, keep, x.disk, x.manifest, at)
    requires a < |ms| && ms[a].what.Hard? && !Overrun(ms, a, |ms|) && Recorded(ms[a], keep) in x.manifest
    ensures x.disk.IsLeaf(ms[a].path)
  {
    var e := Recorded(ms[a], keep);
    var b: nat :| AccountedBy(ms, |ms|, keep, x.disk, e, b);
    assert ms[a].path == ms[b].path && !ms[b].what.Dir?;
    assert a == b;
  }

  /** No entry of that path has a sum to match. */
  lemma StrayUnmatched(ms: seq<Member>, keep: set<Path>, d: Disk, manifest: seq<FileEntry>, a: nat, e: FileEntry)
    requires DistinctLeaves(ms) && forall x :: x in manifest && !x.kind.Dir? ==> Accounted(ms, |ms|, keep, d, x)
    requires a < |ms| && ms[a].what.Hard? && !LinksFile(ms, ms[a])
    requires e in manifest && !e.kind.Dir? && e.path == ms[a].path
    ensures e.kind == Kind.Hard(ms[a].what.to) && ms[a].what.to !in Sums(manifest)
  {
    SumsFrom(manifest, ms[a].what.to);
    forall f | f in manifest && f.kind.File? ensures f.path != ms[a].what.to {
      var c: nat :| AccountedBy(ms, |ms|, keep, d, f, c);
      assert ms[c] in ms && ms[c].what.File?;
    }
    var b: nat :| AccountedBy(ms, |ms|, keep, d, e, b);
    assert ms[a].path == ms[b].path && !ms[b].what.Dir?;
  }

  // ------------------------------------------------------------------------ both together

  /** A job whose package is new to the root, accepted without force. */
  ghost predicate NewJob(st: State, j: Job) {
    && OwnLibraries(st)
    && j.key !in st.installed
    && Fresh(st.disk, j.members)
    && Accepts(st, [j])
  }

  lemma NewJobSkips(st: State, j: Job)
    requires NewJob(st, j)
    ensures forall m :: m in j.members && !m.what.Dir? ==> m.path !in Skip(EtcEntries(st), st.disk, j.members)
  {
  }

  lemma DispossessNothing(r: State, j: Job)
    requires forall k :: k in r.installed && k != j.key ==> Without(r.installed[k].manifest, Taken(j)) == r.installed[k].manifest
    ensures Dispossess(r, [j]) == r
  {
    var one := DispossessOne(r, j);
    assert one.installed == r.installed && one.provided == r.provided;
    assert [j][1..] == [];
    assert Dispossess(r, [j]) == Dispossess(one, []);
  }

  /** Nobody loses a path to a package whose paths nobody owned. */
  lemma NewJobTakesNothing(st: State, r: State, j: Job)
    requires NewJob(st, j) && r.installed.Keys == st.installed.Keys + {j.key}
    requires forall k :: k in st.installed ==> r.installed[k] == st.installed[k]
    ensures Dispossess(r, [j]) == r
  {
    var jobs := [j];
    var leaves := AllLeafPaths(jobs);
    var none: seq<Job> := [];
    assert jobs[1..] == none;
    assert leaves == LeafPaths(j.members) + AllLeafPaths(none);
    assert JobKeys([j]) == {j.key};
    forall k | k in r.installed && k != j.key ensures Without(r.installed[k].manifest, Taken(j)) == r.installed[k].manifest {
      forall e | e in r.installed[k].manifest && !e.kind.Dir? ensures e.path !in Taken(j) {
        assert Claims(st.installed[k], e.path);
        assert Owned(st, {j.key}, e.path);
        assert e.path !in leaves;
        LeafPathsMember(j.members, e.path);
      }
      WithoutNothing(r.installed[k].manifest, Taken(j));
    }
    DispossessNothing(r, j);
  }

  lemma {:induction false} WithoutNothing(manifest: seq<FileEntry>, taken: set<Path>)
    requires forall e :: e in manifest && !e.kind.Dir? ==> e.path !in taken
    ensures Without(manifest, taken) == manifest
  {
    if manifest != [] {
      WithoutNothing(manifest[1..], taken);
    }
  }

  lemma BatchOfOne(env: Env, st: State, j: Job)
    requires Batch(env, st, [j]).Some?
    ensures var x := Extract(st.disk, j.members, Skip(EtcEntries(st), st.disk, j.members), env.keep);
      x.Some? && Batch(env, st, [j]).value.st == Recording(env, st, j, x.value)
  {
    var etc := EtcEntries(st);
    var x := Extract(st.disk, j.members, Skip(etc, st.disk, j.members), env.keep).value;
    var r := Recording(env, st, j, x);
    var jobs, none: seq<Job> := [j], [];
    assert jobs[1..] == none;
    var pass := Pass(r, {} + PathSet(x.manifest), []);
    assert ApplyJobs(env, etc, r, none, {} + PathSet(x.manifest)) == Some(pass);
  }

  /** A package that replaces nothing keeps nothing back. */
  lemma HeldNothing(env: Env, st: State, j: Job)
    requires Batch(env, st, [j]).Some? && j.key !in st.installed
    ensures Held(env, st, [j]).st == Batch(env, st, [j]).value.st
    ensures WasOf(st, [j]) == [None]
  {
    var pass, was := Batch(env, st, [j]).value, WasOf(st, [j]);
    var before, r := BeforeOf(env, st.disk, was), pass.st;
    assert was == [None];
    assert Preserve(was[0], before[0], pass.carried[0], pass.kept) == [];
    var had := map p | p in PreservedOf(r, j.key) && p !in pass.kept :: PreservedOf(r, j.key)[p];
    assert Joined(had, []) == had;
    var jobs, none: seq<Job> := [j], [];
    var m: seq<FileEntry> := [];
    assert PreserveOne(r, j.key, m, pass.kept) == r;
    assert jobs[1..] == none;
    assert PreserveJobs(r, none, was[1..], before[1..], pass.carried[1..], pass.kept + PathSet(m)).st == r;
    assert PreserveJobs(r, jobs, was, before, pass.carried, pass.kept).st == r;
  }

  lemma PruneNothing(d: Disk, kept: set<Path>)
    ensures Prune(d, [None], kept) == d
  {
    var was: seq<Option<Installed>> := [None];
    assert Prune(d, was[1..], kept) == d;
  }

  /** Installing a new package is extracting it and adding its record. */
  lemma NewJobApplied(env: Env, st: State, j: Job)
    requires NewJob(st, j) && Apply(env, st, [j]).Some?
    ensures var x := Extract(st.disk, j.members, Skip(EtcEntries(st), st.disk, j.members), env.keep);
      x.Some? && Apply(env, st, [j]) == Some(Recording(env, st, j, x.value))
  {
    BatchOfOne(env, st, j);
    NewJobBatch(env, st, j);
    ApplyOfOne(env, st, j);
  }

  lemma NewJobBatch(env: Env, st: State, j: Job)
    requires NewJob(st, j) && Batch(env, st, [j]).Some?
    ensures var r := Batch(env, st, [j]).value.st; Dispossess(r, [j]) == r
  {
    BatchOfOne(env, st, j);
    NewJobTakesNothing(st, Batch(env, st, [j]).value.st, j);
  }

  lemma ApplyOfOne(env: Env, st: State, j: Job)
    requires Batch(env, st, [j]).Some? && j.key !in st.installed
    requires var r := Batch(env, st, [j]).value.st; Dispossess(r, [j]) == r
    ensures Apply(env, st, [j]) == Some(Batch(env, st, [j]).value.st)
  {
    HeldNothing(env, st, j);
    PruneNothing(Batch(env, st, [j]).value.st.disk, Held(env, st, [j]).kept);
  }

  lemma OneRemoved(st: State, k: Key, force: bool)
    requires Remove(st, k.target, [k.name], force).outcome == Outcome.Gone
    ensures k in st.installed
    ensures var rec := st.installed[k];
      Remove(st, k.target, [k.name], force).st
      == Forget(st.(disk := Unlink(Swept(st.disk, NOTHING), rec.manifest, Sums(rec.manifest)).disk), k)
  {
    assert Key(k.target, k.name) == k;
    assert k.name in [k.name] && [k.name][1..] == [];
    var recs, rec := RecordsOf(st, k.target, [k.name]), st.installed[k];
    var after := Forget(st.(disk := Unlink(Swept(st.disk, NOTHING), rec.manifest, Sums(rec.manifest)).disk), k);
    assert RemoveAll(after, k.target, [], recs) == Removal(after, Outcome.Gone, []);
  }

  /** A directory entry for an old directory is a member's own. */
  lemma {:induction false} DirsNamed(d0: Disk, d: Disk, ms: seq<Member>, skip: set<Path>, keep: set<Path>)
    requires Extract(d, ms, skip, keep).Some? && KeepsDirs(d0, d)
    ensures forall e :: e in Extract(d, ms, skip, keep).value.manifest && e.kind.Dir? && e.path in d0.nodes && d0.nodes[e.path].Dir? ==>
      NamesDir(ms, e.path)
    ensures KeepsDirs(d0, Extract(d, ms, skip, keep).value.disk)
    decreases |ms|
  {
    if ms != [] {
      var m, rest, e := ms[0], ms[1..], Put(d, ms[0], skip);
      StepsFit(d, m, skip);
      forall p | p in d0.nodes && d0.nodes[p].Dir? ensures p in e.nodes && e.nodes[p].Dir? && p !in Missing(d, Parent(m.path)) {
        PutAt(d, m, skip, p);
      }
      DirsNamed(d0, e, rest, skip, keep);
      forall x | x in Extract(d, ms, skip, keep).value.manifest && x.kind.Dir? && x.path in d0.nodes && d0.nodes[x.path].Dir?
        ensures NamesDir(ms, x.path)
      {
        if x in Extract(e, rest, skip, keep).value.manifest {
          var n :| n in rest && n.what.Dir? && n.path == x.path;
          assert n in ms;
        } else {
          assert x in Entries(d, m, keep) && m in ms;
        }
      }
    }
  }

  ghost predicate NamesDir(ms: seq<Member>, p: Path) {
    exists m :: m in ms && m.what.Dir? && m.path == p
  }

  /** Of the old directories only those can go that the archive names itself, that no rule
      protects, and that have nothing left in them. */
  ghost predicate EmptiedGo(d0: Disk, r: Disk, ms: seq<Member>) {
    forall p :: p in d0.nodes && d0.nodes[p].Dir? && p !in r.nodes ==>
      p !in PROTECTED && NamesDir(ms, p) && forall q :: q in r.nodes ==> !(p < q)
  }

  lemma UnlinkEmpties(d0: Disk, ms: seq<Member>, skip: set<Path>, keep: set<Path>)
    requires d0.Valid() && Extract(d0, ms, skip, keep).Some?
    ensures EmptiedGo(d0, Gone(d0, ms, skip, keep), ms)
  {
    var x, r := Extract(d0, ms, skip, keep).value, Gone(d0, ms, skip, keep);
    DirsNamed(d0, d0, ms, skip, keep);
    ExtractKeepsValid(d0, ms, skip, keep);
    UnlinkSweeps(Swept(x.disk, NOTHING), x.manifest, Sums(x.manifest));
    forall p | p in d0.nodes && d0.nodes[p].Dir? && p !in r.nodes
      ensures p !in PROTECTED && NamesDir(ms, p) && forall q :: q in r.nodes ==> !(p < q)
    {
      DirTaken(x.disk, x.manifest, p, r);
      NothingBelow(r, p);
    }
  }

  lemma DirTaken(d: Disk, manifest: seq<FileEntry>, p: Path, r: Disk)
    requires SweptTo(d, r, manifest, Sums(manifest)) && p in d.nodes && d.nodes[p].Dir? && p !in r.nodes
    ensures p !in PROTECTED && exists e :: e in manifest && e.path == p && e.kind.Dir?
  {
    var e :| e in manifest && e.path == p && Takes(d, e, Sums(manifest));
    assert e.kind.Dir?;
  }

  lemma NothingBelow(r: Disk, p: Path)
    requires r.Valid() && p !in r.nodes && p != []
    ensures forall q :: q in r.nodes ==> !(p < q)
  {
    forall q | q in r.nodes ensures !(p < q) {
      if p < q { Above(r, q, p); }
    }
  }

  // ------------------------------------------------------------- the old directories

  /** The manifest has the directory before anything in it. */
  ghost predicate ListedFirst(manifest: seq<FileEntry>, p: Path) {
    exists t :: 0 <= t < |manifest| && FirstAt(manifest, p, t)
  }

  ghost predicate FirstAt(manifest: seq<FileEntry>, p: Path, t: nat)
    requires t < |manifest|
  {
    manifest[t].kind.Dir? && manifest[t].path == p && forall i :: 0 <= i < |manifest| && p < manifest[i].path ==> t < i
  }

  /** An archive that lists directories before what is in them. */
  ghost predicate DirsFirst(d0: Disk, ms: seq<Member>, manifest: seq<FileEntry>) {
    forall p :: p in d0.nodes && d0.nodes[p].Dir? && NamesDir(ms, p) ==> ListedFirst(manifest, p)
  }

  /** An old directory that no rule protects, and that the archive names with all that was in
      it. */
  ghost predicate Vacant(d0: Disk, ms: seq<Member>, p: Path) {
    && p in d0.nodes && d0.nodes[p].Dir? && NamesDir(ms, p) && p !in PROTECTED
    && forall q :: q in d0.nodes && p < q ==> d0.nodes[q].Dir? && NamesDir(ms, q)
  }

  ghost function VacantSet(d0: Disk, ms: seq<Member>): set<Path> {
    set p | p in d0.nodes && Vacant(d0, ms, p)
  }

  /** The old root as if the vacant directories had not been there. */
  ghost function Thinned(d0: Disk, ms: seq<Member>): Disk {
    d0.(nodes := d0.nodes - VacantSet(d0, ms))
  }

  lemma {:induction false} ProtectedBelow(p: Path, q: Path)
    requires p <= q && q in PROTECTED
    ensures p in PROTECTED
    decreases |q|
  {
    if p != q {
      ProtectedAbove(q);
      assert p <= Parent(q);
      ProtectedBelow(p, Parent(q));
    }
  }

  /** What is in a vacant directory is vacant too, so the rest is a tree. */
  lemma ThinnedValid(d0: Disk, ms: seq<Member>)
    requires d0.Valid()
    ensures Thinned(d0, ms).Valid()
    ensures forall p, q :: Vacant(d0, ms, p) && q in d0.nodes && p < q ==> Vacant(d0, ms, q)
  {
    forall p, q | Vacant(d0, ms, p) && q in d0.nodes && p < q ensures Vacant(d0, ms, q) {
      if q in PROTECTED {
        ProtectedBelow(p, q);
      }
      forall c | c in d0.nodes && q < c ensures d0.nodes[c].Dir? && NamesDir(ms, c) {
        assert p < c;
      }
    }
    var t := Thinned(d0, ms);
    forall p | p in t.nodes ensures t.IsDir(Parent(p)) {
      assert d0.IsDir(Parent(p)) && Parent(p) < p;
    }
  }

  ghost function FirstOf(manifest: seq<FileEntry>, p: Path): nat
    requires ListedFirst(manifest, p)
  {
    var t :| 0 <= t < |manifest| && FirstAt(manifest, p, t);
    t
  }

  /** The vacant directories join what the extraction made, each under its first entry. */
  ghost function Joining(d0: Disk, ms: seq<Member>, manifest: seq<FileEntry>, at: map<Path, nat>): map<Path, nat>
    requires DirsFirst(d0, ms, manifest)
  {
    at + map p | p in VacantSet(d0, ms) :: FirstOf(manifest, p)
  }

  /** A name is listed after a vacant directory it is in. */
  lemma ListedAfter(manifest: seq<FileEntry>, p: Path, q: Path, i: nat)
    requires ListedFirst(manifest, p) && p < q && i < |manifest| && manifest[i].path == q
    ensures FirstOf(manifest, p) < i
  {
    assert FirstAt(manifest, p, FirstOf(manifest, p));
  }

  lemma FirstIs(manifest: seq<FileEntry>, p: Path)
    requires ListedFirst(manifest, p)
    ensures FirstOf(manifest, p) < |manifest| && manifest[FirstOf(manifest, p)].path == p && manifest[FirstOf(manifest, p)].kind.Dir?
  {
    assert FirstAt(manifest, p, FirstOf(manifest, p));
  }

  lemma OldAbove(d0: Disk, d: Disk, p: Path, q: Path)
    requires d0.Valid() && d.Valid() && q in d0.nodes && p < q && p in d.nodes
    ensures p in d0.nodes
  {
    Above(d0, q, p);
  }

  lemma JoiningNamed(d0: Disk, ms: seq<Member>, d: Disk, manifest: seq<FileEntry>, at: map<Path, nat>, p: Path)
    requires Tracks(d0, d, manifest, at) && KeepsDirs(d0, d) && DirsFirst(d0, ms, manifest) && p in Joining(d0, ms, manifest, at)
    ensures var i := Joining(d0, ms, manifest, at)[p];
      i < |manifest| && manifest[i].path == p && (manifest[i].kind.Dir? <==> d.nodes[p].Dir?)
  {
    if p in VacantSet(d0, ms) {
      FirstIs(manifest, p);
    }
  }

  lemma JoiningOrdered(d0: Disk, ms: seq<Member>, d: Disk, manifest: seq<FileEntry>, at: map<Path, nat>, p: Path, q: Path)
    requires d0.Valid() && d.Valid() && Tracks(d0, d, manifest, at) && KeepsDirs(d0, d) && DirsFirst(d0, ms, manifest)
    requires var more := Joining(d0, ms, manifest, at); p in more && q in more && p < q
    ensures Joining(d0, ms, manifest, at)[p] < Joining(d0, ms, manifest, at)[q]
  {
    if p in VacantSet(d0, ms) {
      JoiningNamed(d0, ms, d, manifest, at, q);
      ListedAfter(manifest, p, q, Joining(d0, ms, manifest, at)[q]);
    } else if q in VacantSet(d0, ms) {
      OldAbove(d0, d, p, q);
    }
  }

  lemma JoiningTracks(d0: Disk, ms: seq<Member>, d: Disk, manifest: seq<FileEntry>, at: map<Path, nat>)
    requires d0.Valid() && d.Valid() && Tracks(d0, d, manifest, at) && KeepsDirs(d0, d) && DirsFirst(d0, ms, manifest)
    ensures Tracks(Thinned(d0, ms), d, manifest, Joining(d0, ms, manifest, at))
  {
    var more := Joining(d0, ms, manifest, at);
    assert more.Keys == d.nodes.Keys - Thinned(d0, ms).nodes.Keys;
    forall p | p in more ensures more[p] < |manifest| && manifest[more[p]].path == p && (manifest[more[p]].kind.Dir? <==> d.nodes[p].Dir?) {
      JoiningNamed(d0, ms, d, manifest, at, p);
    }
    forall p, q | p in more && q in more && p < q ensures more[p] < more[q] {
      JoiningOrdered(d0, ms, d, manifest, at, p, q);
    }
  }

  /** The vacant directories go. */
  lemma VacantGo(d0: Disk, ms: seq<Member>, skip: set<Path>, keep: set<Path>)
    requires Fresh(d0, ms) && Extract(d0, ms, skip, keep).Some? && NoStrays(ms)
    requires forall m :: m in ms && !m.what.Dir? ==> m.path !in skip
    requires DirsFirst(d0, ms, Extract(d0, ms, skip, keep).value.manifest)
    ensures forall p :: Vacant(d0, ms, p) ==> p !in Gone(d0, ms, skip, keep).nodes
  {
    var x := Extract(d0, ms, skip, keep).value;
    var d, manifest := x.disk, x.manifest;
    var at := ExtractTracked(d0, ms, skip, keep);
    LeavesAllMatch(d0, ms, skip, keep, at);
    ThinnedValid(d0, ms);
    JoiningTracks(d0, ms, d, manifest, at);
    var more := Joining(d0, ms, manifest, at);
    assert manifest[..|manifest|] == manifest;
    TakeAll(Thinned(d0, ms), ms, keep, d, manifest, more, Swept(d, NOTHING), |manifest|);
    forall p | Vacant(d0, ms, p) ensures p !in Gone(d0, ms, skip, keep).nodes {
      assert p in VacantSet(d0, ms) && p in more;
    }
  }

  /** And no others, where no leaf is lost. */
  lemma OnlyVacantGo(d0: Disk, r: Disk, ms: seq<Member>)
    requires EmptiedGo(d0, r, ms) && NothingGone(d0, r)
    ensures forall p :: p in d0.nodes && d0.nodes[p].Dir? && p !in r.nodes ==> Vacant(d0, ms, p)
  {
    forall p, q | p in d0.nodes && d0.nodes[p].Dir? && p !in r.nodes && q in d0.nodes && p < q
      ensures d0.nodes[q].Dir? && NamesDir(ms, q)
    {
      assert q !in r.nodes && (d0.IsLeaf(q) ==> SameName(d0, r, q));
    }
  }

  /** Such a directory: an old, empty one that an archive is all of. */
  lemma OldDirectoryGoes(d0: Disk, p: Path, mode: nat)
    requires d0.Valid() && p in d0.nodes && d0.nodes[p].Dir? && d0.Empty(p) && p !in PROTECTED
    ensures var ms := [Member(What.Dir, mode, p)];
      Extract(d0, ms, {}, {}).Some? && p !in Gone(d0, ms, {}, {}).nodes
  {
    var m := Member(What.Dir, mode, p);
    var e, ms := Put(d0, m, {}), [m];
    var none: seq<FileEntry> := [];
    assert d0.IsDir(Parent(p)) && Missing(d0, Parent(p)) == [];
    StepsPut(d0, m, {});
    RunValid(d0, Steps(d0, m, {}));
    forall q ensures PutName(d0, m, {}, e, q) {
      PutAt(d0, m, {}, q);
    }
    var manifest := [Recorded(m, {})];
    assert ms[1..] == [] && Entries(d0, m, {}) + none == manifest;
    assert Extract(d0, ms, {}, {}) == Some(Extracted(e, manifest));
    assert manifest[..0] == none;
    assert Unlink(Swept(e, NOTHING), manifest, Sums(manifest)) == UnlinkOne(Swept(e, NOTHING), manifest[0], Sums(manifest));
  }

  lemma {:induction false} ExtractKeepsValid(d: Disk, ms: seq<Member>, skip: set<Path>, keep: set<Path>)
    requires d.Valid() && Extract(d, ms, skip, keep).Some?
    ensures Extract(d, ms, skip, keep).value.disk.Valid()
    decreases |ms|
  {
    if ms != [] {
      RunValid(d, Steps(d, ms[0], skip));
      ExtractKeepsValid(Run(d, Steps(d, ms[0], skip)).value, ms[1..], skip, keep);
    }
  }

  /** What the installed archive is recorded as. */
  ghost function ManifestOf(env: Env, st: State, j: Job): seq<FileEntry> {
    var x := Extract(st.disk, j.members, Skip(EtcEntries(st), st.disk, j.members), env.keep);
    if x.Some? then x.value.manifest else []
  }

  /** Install then remove: the database is what it was. No leaf of the old root has gone exactly
      when none stood where a member's temporary file goes. Nothing is added, but for protected
      directories, exactly when every hard link of the archive names a file of the archive or
      loses its name to a later member's temporary file. An old directory goes only if the
      archive names it and nothing is left in it: where neither of these is in the way and the
      manifest has directories before what is in them, exactly those go that it names with all
      that was in them and that no rule protects. */
  lemma InstallThenRemove(env: Env, st: State, j: Job, force: bool)
    requires NewJob(st, j) && Apply(env, st, [j]).Some?
    requires Remove(Apply(env, st, [j]).value, j.key.target, [j.key.name], force).outcome == Outcome.Gone
    ensures var r := Remove(Apply(env, st, [j]).value, j.key.target, [j.key.name], force).st;
      && r.installed == st.installed && r.provided == st.provided && r.preserved == st.preserved
      && (NothingGone(st.disk, r.disk) <==> TempsFree(st.disk, j.members))
      && (GivenBack(st.disk, r.disk) <==> NoStrays(j.members))
      && EmptiedGo(st.disk, r.disk, j.members)
      && (TempsFree(st.disk, j.members) && NoStrays(j.members) && DirsFirst(st.disk, j.members, ManifestOf(env, st, j)) ==>
            forall p :: p in st.disk.nodes && st.disk.nodes[p].Dir? ==> (p !in r.disk.nodes <==> Vacant(st.disk, j.members, p)))
  {
    var skip := Skip(EtcEntries(st), st.disk, j.members);
    NewJobSkips(st, j);
    NewJobGone(env, st, j, force);
    UnlinkKeepsOld(st.disk, j.members, skip, env.keep);
    UnlinkEmpties(st.disk, j.members, skip, env.keep);
    if NoStrays(j.members) {
      UnlinkGivesBack(st.disk, j.members, skip, env.keep);
      if TempsFree(st.disk, j.members) && DirsFirst(st.disk, j.members, ManifestOf(env, st, j)) {
        VacantGo(st.disk, j.members, skip, env.keep);
        OnlyVacantGo(st.disk, Gone(st.disk, j.members, skip, env.keep), j.members);
      }
    } else {
      var a :| 0 <= a < |j.members| && j.members[a].what.Hard? && !LinksFile(j.members, j.members[a]) && !Overrun(j.members, a, |j.members|);
      StrayLinkStays(st.disk, j.members, skip, env.keep, a);
    }
  }

  /** What was recorded under a new name and is forgotten was never there. */
  lemma ForgetsNew(st: State, after: State, k: Key, r: State)
    requires k !in st.installed && k !in st.provided
    requires after.installed.Keys == st.installed.Keys + {k} && forall o :: o in st.installed ==> after.installed[o] == st.installed[o]
    requires after.provided.Keys == st.provided.Keys + {k} && forall o :: o in st.provided ==> after.provided[o] == st.provided[o]
    requires r.installed == after.installed - {k} && r.provided == after.provided - {k}
    ensures r.installed == st.installed && r.provided == st.provided
  {
  }

  lemma RecordingRemoved(env: Env, st: State, j: Job, x: Extracted, force: bool)
    requires j.key !in st.installed && j.key !in st.provided
    requires Remove(Recording(env, st, j, x), j.key.target, [j.key.name], force).outcome == Outcome.Gone
    ensures var r := Remove(Recording(env, st, j, x), j.key.target, [j.key.name], force).st;
      && r.installed == st.installed && r.provided == st.provided && r.preserved == st.preserved
      && r.disk == Unlink(Swept(x.disk, NOTHING), x.manifest, Sums(x.manifest)).disk
  {
    var after := Recording(env, st, j, x);
    OneRemoved(after, j.key, force);
    ForgetsNew(st, after, j.key, Remove(after, j.key.target, [j.key.name], force).st);
  }

  lemma NewJobGone(env: Env, st: State, j: Job, force: bool)
    requires NewJob(st, j) && Apply(env, st, [j]).Some?
    requires Remove(Apply(env, st, [j]).value, j.key.target, [j.key.name], force).outcome == Outcome.Gone
    ensures var skip := Skip(EtcEntries(st), st.disk, j.members);
      var r := Remove(Apply(env, st, [j]).value, j.key.target, [j.key.name], force).st;
      && r.installed == st.installed && r.provided == st.provided && r.preserved == st.preserved
      && Extract(st.disk, j.members, skip, env.keep).Some? && r.disk == Gone(st.disk, j.members, skip, env.keep)
  {
    NewJobApplied(env, st, j);
    RecordingRemoved(env, st, j, Extract(st.disk, j.members, Skip(EtcEntries(st), st.disk, j.members), env.keep).value, force);
  }
}
