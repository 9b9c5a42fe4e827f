/** What reaches a build's sysroot: `assemble` in sandbox.rs. */
module Sysroot {
  import opened Paths
  import opened Records
  import opened Worklist
  import opened Closure

  /** `needs` is what the text of a `.pc` or cmake file asks for by name; `listed` the installed
      names of a target in order; `kept` the preserved records. */
  datatype Root = Root(
    db: map<Key, Record>,
    listed: map<string, seq<string>>,
    kept: map<Key, seq<TextEntry>>,
    needs: string -> seq<string>)

  const PRUNED := "usr/lib/kiry/prune/"

  // ------------------------------------------------------------------------ who has what

  datatype Sort = Pc | Cmake

  predicate Declares(path: string) {
    EndsWith(path, "Config.cmake") || EndsWith(path, "-config.cmake") || EndsWith(path, "Dependencies.cmake")
  }

  /** The kind of requirements a file states, if it states any. */
  function SortOf(path: string): Option<Sort> {
    if Declares(path) then Some(Cmake) else if EndsWith(path, ".pc") then Some(Pc) else None
  }

  /** Where a text first holds another. */
  function Find(s: string, pat: string): (r: Option<nat>)
    ensures r.Some? ==> r.value + |pat| <= |s|
  {
    if pat <= s then Some(0)
    else if s == [] then None
    else match Find(s[1..], pat) case None => None case Some(i) => Some(i + 1)
  }

  /** The field behind the first `/cmake/`. */
  function UnderCmake(path: string): Option<string> {
    match Find(path, "/cmake/")
    case None => None
    case Some(i) =>
      var rest := path[i + 7..];
      match Find(rest, "/cmake/")
      case None => Some(rest)
      case Some(j) => Some(rest[..j])
  }

  function Lower(c: char): char {
    if 'A' <= c <= 'Z' then ((c as int) + 32) as char else c
  }

  predicate SameIgnoringCase(a: string, b: string) {
    |a| == |b| && forall i :: 0 <= i < |a| ==> Lower(a[i]) == Lower(b[i])
  }

  /** The package a cmake file is the config of: a directory whose one file is named after it. */
  function CmakeName(path: string): Option<string> {
    match UnderCmake(path)
    case None => None
    case Some(under) =>
      match Find(under, "/")
      case None => None
      case Some(i) =>
        var (d, file) := (under[..i], under[i + 1..]);
        if file == d + "Config.cmake" || SameIgnoringCase(file, d + "-config.cmake") then Some(d) else None
  }

  /** The last component of a path. */
  function BaseName(path: string): string
    decreases |path|
  {
    if '/' !in path then path
    else match Find(path, "/") case None => path case Some(i) => BaseName(path[i + 1..])
  }

  function PcName(path: string): Option<string> {
    if EndsWith(path, ".pc") then Some(BaseName(path[..|path| - 3])) else None
  }

  function NameIn(sort: Sort, path: string): Option<string> {
    match sort case Pc => PcName(path) case Cmake => CmakeName(path)
  }

  predicate Has(r: Root, t: string, name: string, sort: Sort, n: string) {
    Key(t, name) in r.db && exists e <- r.db[Key(t, name)].manifest :: NameIn(sort, e.path) == Some(n)
  }

  function FirstWith(r: Root, t: string, names: seq<string>, sort: Sort, n: string): Option<string> {
    if names == [] then None
    else if Has(r, t, names[0], sort, n) then Some(names[0])
    else FirstWith(r, t, names[1..], sort, n)
  }

  function ListedOf(r: Root, t: string): seq<string> {
    if t in r.listed then r.listed[t] else []
  }

  /** The first installed package of a target that ships a name. */
  function Owner(r: Root, t: string, sort: Sort, n: string): Option<string> {
    FirstWith(r, t, ListedOf(r, t), sort, n)
  }

  function OwnerKey(r: Root, t: string, sort: Sort, n: string): set<Key> {
    if Owner(r, t, sort, n).Some? then {Key(t, Owner(r, t, sort, n).value)} else {}
  }

  /** The owners of the names that have one. */
  function Owners(r: Root, t: string, sort: Sort, need: seq<string>): set<Key> {
    if need == [] then {}
    else Owners(r, t, sort, need[..|need| - 1]) + OwnerKey(r, t, sort, need[|need| - 1])
  }

  /** What one manifest entry asks for, as packages. */
  function AsksFor(r: Root, t: string, path: string): set<Key> {
    match SortOf(path)
    case None => {}
    case Some(sort) => Owners(r, t, sort, r.needs(path))
  }

  function Requirements(r: Root, t: string, manifest: seq<TextEntry>): set<Key> {
    if manifest == [] then {}
    else Requirements(r, t, manifest[..|manifest| - 1]) + AsksFor(r, t, manifest[|manifest| - 1].path)
  }

  ghost function DevGraph(r: Root): Graph<Key> {
    map k | k in r.db.Keys :: Requirements(r, k.target, r.db[k].manifest)
  }

  function DirectSet(ms: seq<Member>): set<Key> {
    set m <- ms | m.direct :: m.At()
  }

  /** A package whose headers a build reads: declared, or asked for by one that is. */
  ghost predicate Dev(r: Root, ms: seq<Member>, k: Key) {
    Reachable(DevGraph(r), DirectSet(ms), k)
  }

  // ------------------------------------------------------------------------- the rule

  predicate BuildsAgainst(path: string) {
    StartsWith(path, "usr/include/") || EndsWith(path, ".pc") || EndsWith(path, ".m4") || EndsWith(path, ".cmake")
  }

  /** One entry put at its path, with the file of the root its bytes come from. */
  datatype Placed = Placed(owner: Key, entry: TextEntry, from: string)

  predicate Ships(manifest: seq<TextEntry>, path: string) {
    exists e <- manifest :: e.path == path
  }

  /** A pruned library is linked against as it was first linked, which is kept under its name. */
  function Source(manifest: seq<TextEntry>, e: TextEntry): string {
    var full := PRUNED + BaseName(e.path);
    if e.kind.File? && !StartsWith(e.path, PRUNED) && Ships(manifest, full) then full else e.path
  }

  /** What a member's own manifest gives, whole or not. */
  predicate Given(target: string, owner: Key, whole: bool, e: TextEntry) {
    whole || !(BuildsAgainst(e.path) || (owner.target != target && IsConfig(e.path)))
  }

  predicate FromManifest(r: Root, target: string, owner: Key, whole: bool, p: Placed)
    requires owner in r.db
  {
    && p.owner == owner && p.entry in r.db[owner].manifest && Given(target, owner, whole, p.entry)
    && p.from == Source(r.db[owner].manifest, p.entry)
  }

  function KeptOf(r: Root, k: Key): seq<TextEntry> {
    if k in r.kept then r.kept[k] else []
  }

  predicate FromKept(r: Root, owner: Key, p: Placed) {
    p.owner == owner && p.entry in KeptOf(r, owner) && p.from == p.entry.path
  }

  predicate FromMember(r: Root, target: string, owner: Key, whole: bool, p: Placed) {
    owner in r.db && (FromManifest(r, target, owner, whole, p) || FromKept(r, owner, p))
  }

  /** From a package that is no member, only what a build reads. */
  predicate FromOutside(r: Root, owner: Key, p: Placed) {
    && owner in r.db && p.owner == owner && p.entry in r.db[owner].manifest
    && BuildsAgainst(p.entry.path) && p.from == p.entry.path
  }

  predicate IsMember(ms: seq<Member>, k: Key) {
    exists m <- ms :: m.At() == k
  }

  /** The rule: what may be in the sysroot. */
  ghost predicate Allowed(r: Root, target: string, ms: seq<Member>, p: Placed) {
    if IsMember(ms, p.owner) then FromMember(r, target, p.owner, Dev(r, ms, p.owner), p)
    else Dev(r, ms, p.owner) && FromOutside(r, p.owner, p)
  }

  // ----------------------------------------------------------------------- the worklist

  /** A table of owners agrees with the first-wins rule. */
  ghost predicate Indexes(r: Root, t: string, names: seq<string>, sort: Sort, index: map<string, string>) {
    forall n: string :: (n in index <==> FirstWith(r, t, names, sort, n).Some?) && (n in index ==> FirstWith(r, t, names, sort, n) == Some(index[n]))
  }

  lemma {:induction false} FirstWithMore(r: Root, t: string, names: seq<string>, name: string, sort: Sort, n: string)
    ensures FirstWith(r, t, names + [name], sort, n) ==
      if FirstWith(r, t, names, sort, n).Some? then FirstWith(r, t, names, sort, n)
      else if Has(r, t, name, sort, n) then Some(name) else None
  {
    var more := names + [name];
    if names == [] {
      assert more[1..] == [];
    } else {
      assert more[1..] == names[1..] + [name] && more[0] == names[0];
      FirstWithMore(r, t, names[1..], name, sort, n);
    }
  }

  method IndexOne(r: Root, t: string, ghost names: seq<string>, name: string, sort: Sort, index: map<string, string>)
    returns (out: map<string, string>)
    requires Indexes(r, t, names, sort, index)
    ensures Indexes(r, t, names + [name], sort, out)
  {
    out := index;
    forall n: string ensures FirstWith(r, t, names + [name], sort, n) == if n in index then Some(index[n]) else if Has(r, t, name, sort, n) then Some(name) else None {
      FirstWithMore(r, t, names, name, sort, n);
    }
    if Key(t, name) !in r.db {
      return;
    }
    var manifest := r.db[Key(t, name)].manifest;
    for i := 0 to |manifest|
      invariant forall n: string :: n in out <==> n in index || exists l :: 0 <= l < i && NameIn(sort, manifest[l].path) == Some(n)
      invariant forall n: string :: n in out ==> out[n] == if n in index then index[n] else name
    {
      var n := NameIn(sort, manifest[i].path);
      if n.Some? && n.value !in out {
        out := out[n.value := name];
      }
    }
    forall n: string | n in out && n !in index ensures Has(r, t, name, sort, n) {
      var l :| 0 <= l < |manifest| && NameIn(sort, manifest[l].path) == Some(n);
      assert manifest[l] in manifest;
    }
  }

  /** `installed_pcs` and `installed_cmake`. */
  method Index(r: Root, t: string, sort: Sort) returns (index: map<string, string>)
    ensures Indexes(r, t, ListedOf(r, t), sort, index)
  {
    index := map[];
    var names := ListedOf(r, t);
    for i := 0 to |names|
      invariant Indexes(r, t, names[..i], sort, index)
    {
      assert names[..i + 1] == names[..i] + [names[i]];
      index := IndexOne(r, t, names[..i], names[i], sort, index);
    }
    assert names[..|names|] == names;
  }

  /** Tables are made once a target. */
  ghost predicate Cached(r: Root, sort: Sort, tables: map<string, map<string, string>>) {
    forall t :: t in tables ==> Indexes(r, t, ListedOf(r, t), sort, tables[t])
  }

  method Cache(r: Root, sort: Sort, tables: map<string, map<string, string>>, t: string)
    returns (now: map<string, map<string, string>>)
    requires Cached(r, sort, tables)
    ensures Cached(r, sort, now) && t in now
  {
    now := tables;
    if t !in tables {
      var index := Index(r, t, sort);
      now := tables[t := index];
    }
  }

  lemma OwnersMore(r: Root, t: string, sort: Sort, need: seq<string>, n: string)
    ensures Owners(r, t, sort, need + [n]) == Owners(r, t, sort, need) + OwnerKey(r, t, sort, n)
  {
    assert (need + [n])[..|need|] == need;
  }

  method JoinOne(r: Root, t: string, ghost sort: Sort, index: map<string, string>, n: string, had: set<Key>, queued: seq<Key>)
    returns (seen: set<Key>, queue: seq<Key>)
    requires Indexes(r, t, ListedOf(r, t), sort, index)
    ensures seen == had + OwnerKey(r, t, sort, n) && Queued(had, queued, seen, queue)
  {
    seen, queue := had, queued;
    assert n in index <==> Owner(r, t, sort, n).Some?;
    if n !in index {
      return;
    }
    var at := Key(t, index[n]);
    if at !in seen {
      seen, queue := seen + {at}, queue + [at];
    }
  }

  /** The owners of what a file asks for join the set and the queue. */
  method Join(r: Root, t: string, ghost sort: Sort, index: map<string, string>, need: seq<string>, had: set<Key>, queued: seq<Key>)
    returns (seen: set<Key>, queue: seq<Key>)
    requires Indexes(r, t, ListedOf(r, t), sort, index)
    ensures seen == had + Owners(r, t, sort, need) && Queued(had, queued, seen, queue)
  {
    seen, queue := had, queued;
    ghost var found: set<Key> := {};
    for i := 0 to |need|
      invariant seen == had + found && found == Owners(r, t, sort, need[..i]) && Queued(had, queued, seen, queue)
    {
      ghost var was, waiting := seen, queue;
      assert need[..i + 1] == need[..i] + [need[i]];
      OwnersMore(r, t, sort, need[..i], need[i]);
      found := found + OwnerKey(r, t, sort, need[i]);
      seen, queue := JoinOne(r, t, sort, index, need[i], seen, queue);
      QueuedOn(had, queued, was, waiting, seen, queue);
    }
    assert need[..|need|] == need;
  }

  /** The queue has grown by what the set has, and not at all if that is nothing. */
  ghost predicate Queued(had: set<Key>, queued: seq<Key>, seen: set<Key>, queue: seq<Key>) {
    && (forall q :: q in queue <==> q in queued || (q in seen && q !in had))
    && (seen == had ==> queue == queued)
  }

  lemma QueuedOn(a: set<Key>, p: seq<Key>, b: set<Key>, q: seq<Key>, c: set<Key>, r: seq<Key>)
    requires a <= b <= c && Queued(a, p, b, q) && Queued(b, q, c, r)
    ensures Queued(a, p, c, r)
  {
  }

  datatype Tables = Tables(owners: map<string, map<string, string>>, configs: map<string, map<string, string>>)

  ghost predicate AllCached(r: Root, tables: Tables) {
    Cached(r, Pc, tables.owners) && Cached(r, Cmake, tables.configs)
  }

  method JoinEntry(r: Root, t: string, path: string, had: set<Key>, queued: seq<Key>, tables: Tables)
    returns (seen: set<Key>, queue: seq<Key>, now: Tables)
    requires AllCached(r, tables)
    ensures AllCached(r, now) && seen == had + AsksFor(r, t, path) && Queued(had, queued, seen, queue)
  {
    seen, queue, now := had, queued, tables;
    var cmake := Declares(path);
    if !cmake && !EndsWith(path, ".pc") {
      return;
    }
    var need := r.needs(path);
    if need == [] {
      return;
    }
    var index: map<string, string>;
    if cmake {
      var configs := Cache(r, Cmake, tables.configs, t);
      now, index := tables.(configs := configs), configs[t];
    } else {
      var owners := Cache(r, Pc, tables.owners, t);
      now, index := tables.(owners := owners), owners[t];
    }
    seen, queue := Join(r, t, if cmake then Cmake else Pc, index, need, had, queued);
  }

  lemma RequirementsMore(r: Root, t: string, manifest: seq<TextEntry>, e: TextEntry)
    ensures Requirements(r, t, manifest + [e]) == Requirements(r, t, manifest) + AsksFor(r, t, e.path)
  {
    assert (manifest + [e])[..|manifest|] == manifest;
  }

  /** Everything one package's files ask for. */
  method Follow(r: Root, k: Key, had: set<Key>, queued: seq<Key>, tables: Tables)
    returns (seen: set<Key>, queue: seq<Key>, now: Tables)
    requires k in r.db && AllCached(r, tables)
    ensures AllCached(r, now) && seen == had + Requirements(r, k.target, r.db[k].manifest) && Queued(had, queued, seen, queue)
  {
    seen, queue, now := had, queued, tables;
    var manifest := r.db[k].manifest;
    ghost var asked: set<Key> := {};
    for i := 0 to |manifest|
      invariant AllCached(r, now) && seen == had + asked && asked == Requirements(r, k.target, manifest[..i])
      invariant Queued(had, queued, seen, queue)
    {
      assert manifest[..i + 1] == manifest[..i] + [manifest[i]];
      RequirementsMore(r, k.target, manifest[..i], manifest[i]);
      asked := asked + AsksFor(r, k.target, manifest[i].path);
      ghost var was, waiting := seen, queue;
      seen, queue, now := JoinEntry(r, k.target, manifest[i].path, seen, queue, now);
      QueuedOn(had, queued, was, waiting, seen, queue);
    }
    assert manifest[..|manifest|] == manifest;
  }

  lemma KnownAll(r: Root, seeds: set<Key>, had: set<Key>, k: Key)
    requires k in r.db && k in had && Known(DevGraph(r), seeds, had)
    ensures Known(DevGraph(r), seeds, had + Requirements(r, k.target, r.db[k].manifest))
  {
    forall b | b in Requirements(r, k.target, r.db[k].manifest)
      ensures Reachable(DevGraph(r), seeds, b) && b in Universe(DevGraph(r), seeds)
    {
      assert Edge(DevGraph(r), k, b);
      EdgeReachable(DevGraph(r), seeds, k, b);
    }
  }

  lemma FollowedNext(r: Root, seeds: set<Key>, had: set<Key>, k: Key, rest: seq<Key>, seen: set<Key>, queue: seq<Key>)
    requires k in r.db && k in had && Known(DevGraph(r), seeds, had) && Following(DevGraph(r), had, rest + [k])
    requires seen == had + Requirements(r, k.target, r.db[k].manifest) && Queued(had, rest, seen, queue)
    ensures had <= seen && Known(DevGraph(r), seeds, seen) && Following(DevGraph(r), seen, queue)
    ensures |had| <= |seen| <= |Universe(DevGraph(r), seeds)| && (|had| == |seen| ==> |queue| <= |rest|)
  {
    KnownAll(r, seeds, had, k);
    StillFollowing(DevGraph(r), had, rest, k, seen, queue);
    Sizes(had, seen, Universe(DevGraph(r), seeds));
  }

  method FollowNext(r: Root, ghost seeds: set<Key>, had: set<Key>, queued: seq<Key>, tables: Tables)
    returns (seen: set<Key>, queue: seq<Key>, now: Tables)
    requires queued != [] && queued[|queued| - 1] in r.db && AllCached(r, tables)
    requires Known(DevGraph(r), seeds, had) && Following(DevGraph(r), had, queued)
    ensures AllCached(r, now) && had <= seen && Known(DevGraph(r), seeds, seen) && Following(DevGraph(r), seen, queue)
    ensures |had| <= |seen| <= |Universe(DevGraph(r), seeds)| && (|had| == |seen| ==> |queue| < |queued|)
  {
    var k := queued[|queued| - 1];
    var rest := queued[..|queued| - 1];
    assert queued == rest + [k] && k in queued;
    seen, queue, now := Follow(r, k, had, rest, tables);
    FollowedNext(r, seeds, had, k, rest, seen, queue);
  }

  /** A set's elements in some order. */
  method Listing<K(==)>(s: set<K>) returns (q: seq<K>)
    ensures forall k :: k in q <==> k in s
  {
    q := [];
    var left := s;
    while left != {}
      invariant left <= s && forall k :: k in q <==> k in s && k !in left
      decreases |left|
    {
      var k :| k in left;
      q, left := q + [k], left - {k};
    }
  }

  /** The packages whose headers a build reads, or `None` when one of them has no record. */
  method DevSet(r: Root, ms: seq<Member>) returns (dev: Option<set<Key>>)
    ensures dev.Some? <==> forall k :: Dev(r, ms, k) ==> k in r.db
    ensures dev.Some? ==> forall k :: k in dev.value <==> Dev(r, ms, k)
  {
    var seen := DirectSet(ms);
    var queue := Listing(seen);
    var tables := Tables(map[], map[]);
    ghost var seeds := seen;
    KnownSeeds(DevGraph(r), seeds);
    while queue != []
      invariant AllCached(r, tables) && seeds <= seen && Known(DevGraph(r), seeds, seen) && Following(DevGraph(r), seen, queue)
      decreases |Universe(DevGraph(r), seeds)| - |seen|, |queue|
    {
      if queue[|queue| - 1] !in r.db {
        assert queue[|queue| - 1] in queue;
        return None;
      }
      seen, queue, tables := FollowNext(r, seeds, seen, queue, tables);
    }
    AllFollowed(DevGraph(r), seeds, seen);
    return Some(seen);
  }

  // ---------------------------------------------------------------------------- staging

  /** One member's manifest and what is kept for it. */
  method StageMember(r: Root, target: string, owner: Key, whole: bool, before: seq<Placed>) returns (out: seq<Placed>)
    requires owner in r.db
    ensures forall p :: p in out <==> p in before || FromMember(r, target, owner, whole, p)
  {
    out := before;
    var manifest := r.db[owner].manifest;
    for i := 0 to |manifest|
      invariant forall p :: p in out <==> p in before || (FromManifest(r, target, owner, whole, p) && p.entry in manifest[..i])
    {
      var e := manifest[i];
      assert manifest[..i + 1] == manifest[..i] + [e];
      if !whole && (BuildsAgainst(e.path) || (owner.target != target && IsConfig(e.path))) {
        continue;
      }
      out := out + [Placed(owner, e, Source(manifest, e))];
    }
    assert manifest[..|manifest|] == manifest;
    ghost var mine := out;
    var kept := KeptOf(r, owner);
    for i := 0 to |kept|
      invariant forall p :: p in out <==> p in mine || (FromKept(r, owner, p) && p.entry in kept[..i])
    {
      assert kept[..i + 1] == kept[..i] + [kept[i]];
      out := out + [Placed(owner, kept[i], kept[i].path)];
    }
    assert kept[..|kept|] == kept;
  }

  method StageOutside(r: Root, owner: Key, before: seq<Placed>) returns (out: seq<Placed>)
    requires owner in r.db
    ensures forall p :: p in out <==> p in before || FromOutside(r, owner, p)
  {
    out := before;
    var manifest := r.db[owner].manifest;
    for i := 0 to |manifest|
      invariant forall p :: p in out <==> p in before || (FromOutside(r, owner, p) && p.entry in manifest[..i])
    {
      var e := manifest[i];
      assert manifest[..i + 1] == manifest[..i] + [e];
      if BuildsAgainst(e.path) {
        out := out + [Placed(owner, e, e.path)];
      }
    }
    assert manifest[..|manifest|] == manifest;
  }

  /** A package listed twice is staged whole the first time, and no differently the second. */
  ghost predicate MembersStaged(r: Root, target: string, ms: seq<Member>, dev: set<Key>, out: seq<Placed>) {
    forall p :: p in out <==> IsMember(ms, p.owner) && FromMember(r, target, p.owner, p.owner in dev, p)
  }

  lemma StageAgain(r: Root, target: string, ms: seq<Member>, m: Member, dev: set<Key>, whole: bool, before: seq<Placed>, out: seq<Placed>)
    requires MembersStaged(r, target, ms, dev, before)
    requires forall p :: p in out <==> p in before || FromMember(r, target, m.At(), whole, p)
    requires whole <==> m.At() in dev && !IsMember(ms, m.At())
    ensures MembersStaged(r, target, ms + [m], dev, out)
  {
    var more := ms + [m];
    assert m in more && forall n :: n in ms ==> n in more;
    forall k ensures IsMember(more, k) <==> IsMember(ms, k) || k == m.At() {
      if IsMember(ms, k) {
        var n :| n in ms && n.At() == k;
        assert n in more;
      }
    }
  }

  method StageMembers(r: Root, target: string, ms: seq<Member>, dev: set<Key>) returns (out: Option<seq<Placed>>, left: set<Key>)
    ensures out.Some? <==> forall m :: m in ms ==> m.At() in r.db
    ensures out.Some? ==> MembersStaged(r, target, ms, dev, out.value)
    ensures out.Some? ==> forall k :: k in left <==> k in dev && !IsMember(ms, k)
  {
    var staged: seq<Placed> := [];
    left := dev;
    for i := 0 to |ms|
      invariant forall m :: m in ms[..i] ==> m.At() in r.db
      invariant MembersStaged(r, target, ms[..i], dev, staged)
      invariant forall k :: k in left <==> k in dev && !IsMember(ms[..i], k)
    {
      var m := ms[i];
      assert ms[..i + 1] == ms[..i] + [m];
      if m.At() !in r.db {
        assert m in ms;
        return None, left;
      }
      var whole := m.At() in left;
      ghost var before := staged;
      staged := StageMember(r, target, m.At(), whole, staged);
      StageAgain(r, target, ms[..i], m, dev, whole, before, staged);
      MemberMore(ms[..i], m);
      left := left - {m.At()};
    }
    assert ms[..|ms|] == ms;
    out := Some(staged);
  }

  lemma MemberMore(ms: seq<Member>, m: Member)
    ensures forall k :: IsMember(ms + [m], k) <==> IsMember(ms, k) || k == m.At()
  {
    var more := ms + [m];
    assert m in more;
    forall k | IsMember(ms, k) ensures IsMember(more, k) {
      var n :| n in ms && n.At() == k;
      assert n in more;
    }
  }

  /** Exactly what the rule allows, however often a package is listed; an error is a package
      without a record, listed or asked for. */
  method Assemble(r: Root, target: string, ms: seq<Member>) returns (out: Option<seq<Placed>>)
    ensures out.Some? <==> (forall k :: Dev(r, ms, k) ==> k in r.db) && forall m :: m in ms ==> m.At() in r.db
    ensures out.Some? ==> forall p :: p in out.value <==> Allowed(r, target, ms, p)
  {
    var dev := DevSet(r, ms);
    if dev.None? {
      return None;
    }
    var left;
    out, left := StageMembers(r, target, ms, dev.value);
    if out.None? {
      return;
    }
    ghost var outside, mine := left, out.value;
    var staged := out.value;
    while left != {}
      invariant left <= outside
      invariant forall p :: p in staged <==> p in mine || (p.owner in outside - left && FromOutside(r, p.owner, p))
      decreases |left|
    {
      var k :| k in left;
      staged := StageOutside(r, k, staged);
      left := left - {k};
    }
    out := Some(staged);
  }

  lemma {:induction false} RequirementsTarget(r: Root, t: string, manifest: seq<TextEntry>)
    ensures forall k :: k in Requirements(r, t, manifest) ==> k.target == t
  {
    if manifest != [] {
      RequirementsTarget(r, t, manifest[..|manifest| - 1]);
      var path := manifest[|manifest| - 1].path;
      if SortOf(path).Some? {
        OwnersTarget(r, t, SortOf(path).value, r.needs(path));
      }
    }
  }

  lemma {:induction false} OwnersTarget(r: Root, t: string, sort: Sort, need: seq<string>)
    ensures forall k :: k in Owners(r, t, sort, need) ==> k.target == t
  {
    if need != [] {
      OwnersTarget(r, t, sort, need[..|need| - 1]);
    }
  }

  /** Headers do not leak in from elsewhere: what is in a sysroot made for a closure comes
      from a package the build needs, or from one whose files those ask for by name, and of
      the target or the host; and what a build reads comes only from the declared packages
      and those they ask for, but for what a preserved record keeps. */
  lemma NothingElse(w: World, r: Root, target: string, deps: seq<Dep>, ms: seq<Member>, p: Placed)
    requires w.toolchain.Some? && IsClosure(w, target, deps, ms) && Allowed(r, target, ms, p)
    ensures Needed(w, target, deps, p.owner) || Dev(r, ms, p.owner)
    ensures p.owner.target == target || p.owner.target == w.host
    ensures BuildsAgainst(p.entry.path) && !FromKept(r, p.owner, p) ==> Dev(r, ms, p.owner)
  {
    if IsMember(ms, p.owner) {
      TwoTargets(w, target, deps, p.owner);
    } else {
      DevTargets(w, r, target, deps, ms, p.owner);
    }
  }

  lemma DevTargets(w: World, r: Root, target: string, deps: seq<Dep>, ms: seq<Member>, k: Key)
    requires w.toolchain.Some? && IsClosure(w, target, deps, ms) && Dev(r, ms, k)
    ensures k.target == target || k.target == w.host
  {
    var g, seeds := DevGraph(r), DirectSet(ms);
    var good := set s | s in Universe(g, seeds) && (s.target == target || s.target == w.host);
    forall m | m in ms ensures m.target == target || m.target == w.host {
      TwoTargets(w, target, deps, m.At());
    }
    forall a, b | a in g && a in good && b in g[a] ensures b in good {
      assert b in Universe(g, seeds);
      RequirementsTarget(r, a.target, r.db[a].manifest);
    }
    ReachableAll(g, seeds, good);
  }

  /** All of a declared package is allowed. */
  lemma DeclaredWhole(w: World, r: Root, target: string, deps: seq<Dep>, ms: seq<Member>, d: Dep, e: TextEntry)
    requires w.toolchain.Some? && IsClosure(w, target, deps, ms) && d in Declared(w, target, deps)
    requires var k := SeedKey(w, target, d); k in r.db && e in r.db[k].manifest
    ensures var k := SeedKey(w, target, d); Allowed(r, target, ms, Placed(k, e, Source(r.db[k].manifest, e)))
  {
    var k := SeedKey(w, target, d);
    SeedReachable(RunGraph(w), Seeds(w, target, deps), k);
    assert Needed(w, target, deps, k);
    var m :| m in ms && m.At() == k;
    assert m.direct;
    SeedReachable(DevGraph(r), DirectSet(ms), k);
  }

  /** A hard link of a package whose headers no build reads, to one of those headers: the rule
      lets the link in and keeps what it names out, and there is nothing to link to. */
  lemma LinkWithoutTarget(r: Root, target: string, ms: seq<Member>, owner: Key, e: TextEntry)
    requires IsMember(ms, owner) && !Dev(r, ms, owner) && owner in r.db && e in r.db[owner].manifest
    requires e.kind.Hard? && BuildsAgainst(e.kind.to) && Given(target, owner, false, e)
    ensures Allowed(r, target, ms, Placed(owner, e, e.path))
    ensures forall q: Placed :: q.owner == owner && q.entry.path == e.kind.to && q.entry !in KeptOf(r, owner) ==> !Allowed(r, target, ms, q)
  {
    assert Source(r.db[owner].manifest, e) == e.path;
  }
}
