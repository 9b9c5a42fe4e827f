/** A file spells one answer and no other: every part of it is settled by the bytes. */
module ParsedOnce {
  import opened Paths
  import opened Disk
  import opened Elf
  import opened ElfMeaning
  import opened SymbolMeaning
  import opened ParsedMeaning
  import GnuHash

  // ------------------------------------------------------------------ lists and strings

  lemma RisesFront(s: seq<nat>)
    requires GnuHash.Rises(s) && s != []
    ensures GnuHash.Rises(s[..|s| - 1]) && forall k: nat :: k in s[..|s| - 1] <==> k in s && k < s[|s| - 1]
  {
    var front := s[..|s| - 1];
    assert forall i :: 0 <= i < |front| ==> front[i] == s[i];
    forall k: nat | k in s && k < s[|s| - 1] ensures k in front {
      var i :| 0 <= i < |s| && s[i] == k;
      assert front[i] == k;
    }
  }

  lemma RisesTo(s: seq<nat>, k: nat)
    requires GnuHash.Rises(s) && k in s
    ensures k <= s[|s| - 1]
  {
  }

  lemma {:induction false} RisesOnce(s: seq<nat>, t: seq<nat>)
    requires GnuHash.Rises(s) && GnuHash.Rises(t) && forall k: nat :: k in s <==> k in t
    ensures s == t
    decreases |s|
  {
    if s == [] {
      assert forall i :: 0 <= i < |t| ==> t[i] in s;
    } else {
      assert s[0] in t;
      RisesFront(s);
      RisesFront(t);
      var a, b := s[|s| - 1], t[|t| - 1];
      assert a in s && b in t;
      RisesTo(s, b);
      RisesTo(t, a);
      var f, g := s[..|s| - 1], t[..|t| - 1];
      forall k: nat ensures k in f <==> k in g {
        assert k in s <==> k in t;
      }
      RisesOnce(f, g);
      assert s == s[..|s| - 1] + [a] && t == t[..|t| - 1] + [b];
    }
  }

  lemma ChosenOnce(n: nat, s: seq<nat>, t: seq<nat>, so: nat -> bool)
    requires Chosen(n, s, so) && Chosen(n, t, so)
    ensures s == t
  {
    forall k: nat ensures k in s <==> k in t {
      assert k in s ==> k < n && so(k);
      assert k in t ==> k < n && so(k);
    }
    RisesOnce(s, t);
  }

  lemma StringBound(b: Bytes, strs: Strings, from: nat, s: Name, t: Name)
    requires strs.at + strs.size <= |b| && StringIs(b, strs, from, s) && StringIs(b, strs, from, t)
    ensures |s| <= |t|
  {
    var p := strs.at + from;
    assert forall i :: 0 <= i < |s| ==> s[i] == b[p + i];
  }

  lemma StringOnce(b: Bytes, strs: Strings, from: nat, s: Name, t: Name)
    requires strs.at + strs.size <= |b| && StringIs(b, strs, from, s) && StringIs(b, strs, from, t)
    ensures s == t
  {
    StringBound(b, strs, from, s, t);
    StringBound(b, strs, from, t, s);
  }

  // ------------------------------------------------------- headers and dynamic section

  lemma HeadersOnce(b: Bytes, n: nat, h: Headers, at: seq<nat>, g: Headers, bt: seq<nat>)
    requires 58 <= |b| && HeadersUpTo(b, n, h, at) && HeadersUpTo(b, n, g, bt)
    ensures h == g
  {
    ChosenOnce(n, at, bt, Kinds(b, 1));
    DynamicOnce(b, n, h.dynamic, g.dynamic);
  }

  lemma DynamicOnce(b: Bytes, n: nat, d: Option<(nat, nat)>, e: Option<(nat, nat)>)
    requires DynamicUpTo(b, n, d) && DynamicUpTo(b, n, e)
    ensures d == e
  {
    if d.Some? && e.Some? {
      assert d.value == (d.value.0, d.value.1) && e.value == (e.value.0, e.value.1);
    }
  }

  /** There is an entry at `k`, and it is not the null one. */
  lemma TagThere(b: Bytes, off: nat, size: nat, es: seq<Tagged>, k: nat)
    requires TagsAre(b, off, size, es)
    ensures k < |es| ==> 16 * (k + 1) <= size && Le8(b, off + 16 * k) != 0
  {
    if k < |es| {
      assert es[k] == Tagged(Le8(b, off + 16 * k), Le8(b, off + 16 * k + 8));
    }
  }

  lemma TagsBound(b: Bytes, off: nat, size: nat, es: seq<Tagged>, fs: seq<Tagged>)
    requires TagsAre(b, off, size, es) && TagsAre(b, off, size, fs)
    ensures |fs| <= |es|
  {
    TagThere(b, off, size, fs, |es|);
  }

  lemma TagsOnce(b: Bytes, off: nat, size: nat, es: seq<Tagged>, fs: seq<Tagged>)
    requires TagsAre(b, off, size, es) && TagsAre(b, off, size, fs)
    ensures es == fs
  {
    TagsBound(b, off, size, es, fs);
    TagsBound(b, off, size, fs, es);
    assert forall k :: 0 <= k < |es| ==> es[k] == fs[k];
  }

  lemma LastTagOnce(es: seq<Tagged>, tag: nat, v: nat, u: nat)
    requires LastTag(es, tag, v) && LastTag(es, tag, u)
    ensures v == u && !NoTag(es, tag)
  {
  }

  lemma TagOrOnce(es: seq<Tagged>, tag: nat, none: nat, v: nat, u: nat)
    requires TagOr(es, tag, none, v) && TagOr(es, tag, none, u)
    ensures v == u
  {
  }

  lemma WhereOnce(loads: seq<Load>, addr: nat, p: nat, q: nat)
    requires Where(loads, addr, p) && Where(loads, addr, q)
    ensures p == q
  {
    var i :| 0 <= i < |loads| && ElfMeaning.Holds(loads[i], addr) && p == loads[i].offset + (addr - loads[i].vaddr)
      && forall l :: 0 <= l < i ==> !ElfMeaning.Holds(loads[l], addr);
    var j :| 0 <= j < |loads| && ElfMeaning.Holds(loads[j], addr) && q == loads[j].offset + (addr - loads[j].vaddr)
      && forall l :: 0 <= l < j ==> !ElfMeaning.Holds(loads[l], addr);
    assert i == j;
  }

  lemma PointsOnce(loads: seq<Load>, es: seq<Tagged>, tag: nat, p: nat, q: nat)
    requires Points(loads, es, tag, p) && Points(loads, es, tag, q)
    ensures p == q
  {
    var a: nat :| LastTag(es, tag, a) && Where(loads, a, p);
    var c: nat :| LastTag(es, tag, c) && Where(loads, c, q);
    LastTagOnce(es, tag, a, c);
    WhereOnce(loads, a, p, q);
  }

  // ------------------------------------------------------------------------- the names

  lemma StringOfOnce(b: Bytes, strs: Strings, es: seq<Tagged>, tag: nat, s: Option<Name>, t: Option<Name>)
    requires strs.at + strs.size <= |b| && StringOf(b, strs, es, tag, s) && StringOf(b, strs, es, tag, t)
    ensures s == t
  {
    if s.Some? && t.Some? {
      var v: nat :| LastTag(es, tag, v) && StringIs(b, strs, v, s.value);
      var u: nat :| LastTag(es, tag, u) && StringIs(b, strs, u, t.value);
      LastTagOnce(es, tag, v, u);
      StringOnce(b, strs, v, s.value, t.value);
    }
  }

  lemma EachOnce(b: Bytes, strs: Strings, vs: seq<nat>, ns: seq<Name>, ms: seq<Name>)
    requires strs.at + strs.size <= |b| && EachString(b, strs, vs, ns) && EachString(b, strs, vs, ms)
    ensures ns == ms
  {
    forall k | 0 <= k < |vs| ensures ns[k] == ms[k] {
      StringOnce(b, strs, vs[k], ns[k], ms[k]);
    }
  }

  lemma AllOfOnce(es: seq<Tagged>, tag: nat, vs: seq<nat>, at: seq<nat>, us: seq<nat>, bt: seq<nat>)
    requires AllOf(es, tag, vs, at) && AllOf(es, tag, us, bt)
    ensures vs == us
  {
    ChosenOnce(|es|, at, bt, Tags(es, tag));
  }

  lemma StringsOfOnce(b: Bytes, strs: Strings, es: seq<Tagged>, tag: nat, ns: seq<Name>, ms: seq<Name>)
    requires strs.at + strs.size <= |b| && StringsOf(b, strs, es, tag, ns) && StringsOf(b, strs, es, tag, ms)
    ensures ns == ms
  {
    var vs, at :| AllOf(es, tag, vs, at) && EachString(b, strs, vs, ns);
    var us, bt :| AllOf(es, tag, us, bt) && EachString(b, strs, us, ms);
    AllOfOnce(es, tag, vs, at, us, bt);
    EachOnce(b, strs, vs, ns, ms);
  }

  lemma TextsOnce(b: Bytes, strs: Strings, es: seq<Tagged>, x: Elf, y: Elf)
    requires strs.at + strs.size <= |b| && TextsAre(b, strs, es, x) && TextsAre(b, strs, es, y)
    ensures x.soname == y.soname && x.needed == y.needed && x.rpath == y.rpath && x.runpath == y.runpath
  {
    StringOfOnce(b, strs, es, 14, x.soname, y.soname);
    StringsOfOnce(b, strs, es, 1, x.needed, y.needed);
    StringOfOnce(b, strs, es, 15, x.rpath, y.rpath);
    StringOfOnce(b, strs, es, 29, x.runpath, y.runpath);
  }

  // ----------------------------------------------------------------------- the versions

  /** A record carries one list of versions. */
  ghost predicate Settled(carries: Carries) {
    forall t: nat, vs, us :: carries(t, vs) && carries(t, us) ==> vs == us
  }

  lemma {:induction false} LinkedAt(b: Bytes, t: nat, num: nat, room: nat, gap: nat, at: seq<nat>, bt: seq<nat>, k: nat)
    requires gap + 4 <= room && Linked(b, t, num, room, gap, at) && Linked(b, t, num, room, gap, bt) && k < |at| && k < |bt|
    ensures at[k] == bt[k]
    decreases k
  {
    if k > 0 {
      var l: nat := k - 1;
      LinkedAt(b, t, num, room, gap, at, bt, l);
      assert Next(b, room, gap, at[l], at[k]) && Next(b, room, gap, bt[l], bt[k]);
    }
  }

  lemma LinkThere(b: Bytes, t: nat, num: nat, room: nat, gap: nat, at: seq<nat>, l: nat)
    requires gap + 4 <= room && Linked(b, t, num, room, gap, at) && l < |at|
    ensures l + 1 < |at| ==> at[l] + room <= |b| && Le4(b, at[l] + gap) != 0
  {
    if l + 1 < |at| {
      assert Next(b, room, gap, at[l], at[l + 1]);
    }
  }

  lemma LinkedBound(b: Bytes, t: nat, num: nat, room: nat, gap: nat, at: seq<nat>, bt: seq<nat>)
    requires gap + 4 <= room && Linked(b, t, num, room, gap, at) && Linked(b, t, num, room, gap, bt)
    ensures |bt| <= |at|
  {
    if 0 < |at| <= |bt| {
      var l: nat := |at| - 1;
      LinkedAt(b, t, num, room, gap, at, bt, l);
      LinkThere(b, t, num, room, gap, bt, l);
    }
  }

  lemma LinkedOnce(b: Bytes, t: nat, num: nat, room: nat, gap: nat, at: seq<nat>, bt: seq<nat>)
    requires gap + 4 <= room && Linked(b, t, num, room, gap, at) && Linked(b, t, num, room, gap, bt)
    ensures at == bt
  {
    LinkedBound(b, t, num, room, gap, at, bt);
    LinkedBound(b, t, num, room, gap, bt, at);
    forall k | 0 <= k < |at| ensures at[k] == bt[k] {
      LinkedAt(b, t, num, room, gap, at, bt, k);
    }
  }

  lemma CarriedOnce(b: Bytes, t: nat, num: nat, room: nat, gap: nat, carries: Carries, at: seq<nat>, each: seq<seq<Version>>, vs: seq<Version>,
                    bt: seq<nat>, other: seq<seq<Version>>, us: seq<Version>)
    requires gap + 4 <= room && Settled(carries)
    requires Carried(b, t, num, room, gap, carries, at, each, vs) && Carried(b, t, num, room, gap, carries, bt, other, us)
    ensures vs == us
  {
    LinkedOnce(b, t, num, room, gap, at, bt);
    assert each == other;
  }

  lemma DefinedAtOnce(b: Bytes, strs: Strings, t: nat, vs: seq<Version>, us: seq<Version>)
    requires strs.at + strs.size <= |b| && DefinedAt(b, strs, t, vs) && DefinedAt(b, strs, t, us)
    ensures vs == us
  {
    if Le2(b, t + 2) % 2 == 0 {
      StringOnce(b, strs, Le4(b, t + Le4(b, t + 12)), vs[0].name, us[0].name);
      OneVersion(vs, us);
    }
  }

  lemma OneVersion(vs: seq<Version>, us: seq<Version>)
    requires |vs| == |us| == 1 && vs[0].ndx == us[0].ndx && vs[0].name == us[0].name && vs[0].mine == us[0].mine
    ensures vs == us
  {
    assert vs[0] == us[0];
  }

  lemma AskedAtOnce(b: Bytes, strs: Strings, a: nat, vs: seq<Version>, us: seq<Version>)
    requires strs.at + strs.size <= |b| && AskedAt(b, strs, a, vs) && AskedAt(b, strs, a, us)
    ensures vs == us
  {
    StringOnce(b, strs, Le4(b, a + 8), vs[0].name, us[0].name);
    OneVersion(vs, us);
  }

  lemma DefinitionsSettled(b: Bytes, strs: Strings)
    requires strs.at + strs.size <= |b|
    ensures Settled(Definitions(b, strs))
  {
    forall t: nat, vs: seq<Version>, us: seq<Version> | DefinedAt(b, strs, t, vs) && DefinedAt(b, strs, t, us) ensures vs == us {
      DefinedAtOnce(b, strs, t, vs, us);
    }
  }

  lemma AskingsSettled(b: Bytes, strs: Strings)
    requires strs.at + strs.size <= |b|
    ensures Settled(Askings(b, strs))
  {
    forall t: nat, vs: seq<Version>, us: seq<Version> | AskedAt(b, strs, t, vs) && AskedAt(b, strs, t, us) ensures vs == us {
      AskedAtOnce(b, strs, t, vs, us);
    }
  }

  lemma NeedingsSettled(b: Bytes, strs: Strings)
    requires strs.at + strs.size <= |b|
    ensures Settled(Needings(b, strs))
  {
    AskingsSettled(b, strs);
    forall t: nat, vs: seq<Version>, us: seq<Version> | NeededAt(b, strs, t, vs) && NeededAt(b, strs, t, us) ensures vs == us {
      var at, each :| NeededBy(b, strs, t, at, each, vs);
      var bt, other :| NeededBy(b, strs, t, bt, other, us);
      CarriedOnce(b, t + Le4(b, t + 8), Le2(b, t + 2), 16, 12, Askings(b, strs), at, each, vs, bt, other, us);
    }
  }

  lemma DefinedOnce(b: Bytes, loads: seq<Load>, strs: Strings, es: seq<Tagged>, vs: seq<Version>, us: seq<Version>)
    requires strs.at + strs.size <= |b| && DefinedAre(b, loads, strs, es, vs) && DefinedAre(b, loads, strs, es, us)
    ensures vs == us
  {
    if !NoTag(es, 0x6fff_fffc) {
      var t: nat, n: nat :| Points(loads, es, 0x6fff_fffc, t) && t <= |b| && TagOr(es, 0x6fff_fffd, 0, n) && DefinedBy(b, strs, t, n, vs);
      var u: nat, m: nat :| Points(loads, es, 0x6fff_fffc, u) && u <= |b| && TagOr(es, 0x6fff_fffd, 0, m) && DefinedBy(b, strs, u, m, us);
      PointsOnce(loads, es, 0x6fff_fffc, t, u);
      TagOrOnce(es, 0x6fff_fffd, 0, n, m);
      DefinitionsSettled(b, strs);
      var at, each :| Carried(b, t, n, 20, 16, Definitions(b, strs), at, each, vs);
      var bt, other :| Carried(b, t, n, 20, 16, Definitions(b, strs), bt, other, us);
      CarriedOnce(b, t, n, 20, 16, Definitions(b, strs), at, each, vs, bt, other, us);
    }
  }

  lemma NeededOnce(b: Bytes, loads: seq<Load>, strs: Strings, es: seq<Tagged>, vs: seq<Version>, us: seq<Version>)
    requires strs.at + strs.size <= |b| && NeededAre(b, loads, strs, es, vs) && NeededAre(b, loads, strs, es, us)
    ensures vs == us
  {
    if !NoTag(es, 0x6fff_fffe) {
      var t: nat, n: nat :| Points(loads, es, 0x6fff_fffe, t) && t <= |b| && TagOr(es, 0x6fff_ffff, 0, n) && NeededFrom(b, strs, t, n, vs);
      var u: nat, m: nat :| Points(loads, es, 0x6fff_fffe, u) && u <= |b| && TagOr(es, 0x6fff_ffff, 0, m) && NeededFrom(b, strs, u, m, us);
      PointsOnce(loads, es, 0x6fff_fffe, t, u);
      TagOrOnce(es, 0x6fff_ffff, 0, n, m);
      NeedingsSettled(b, strs);
      var at, each :| Carried(b, t, n, 16, 12, Needings(b, strs), at, each, vs);
      var bt, other :| Carried(b, t, n, 16, 12, Needings(b, strs), bt, other, us);
      CarriedOnce(b, t, n, 16, 12, Needings(b, strs), at, each, vs, bt, other, us);
    }
  }

  lemma VersionsOnce(b: Bytes, loads: seq<Load>, strs: Strings, es: seq<Tagged>, ns: seq<Version>, ms: seq<Version>)
    requires strs.at + strs.size <= |b| && VersionsAre(b, loads, strs, es, ns) && VersionsAre(b, loads, strs, es, ms)
    ensures ns == ms
  {
    var a, c :| DefinedAre(b, loads, strs, es, a) && NeededAre(b, loads, strs, es, c) && ns == a + c;
    var d, e :| DefinedAre(b, loads, strs, es, d) && NeededAre(b, loads, strs, es, e) && ms == d + e;
    DefinedOnce(b, loads, strs, es, a, d);
    NeededOnce(b, loads, strs, es, c, e);
  }

  // ------------------------------------------------------------------ how many symbols

  lemma OddOnce(b: Bytes, at: nat, i: nat, m: nat, n: nat)
    requires FirstOdd(b, at, i, m) && FirstOdd(b, at, i, n)
    ensures m == n
  {
  }

  lemma LargestOnce(b: Bytes, at: nat, n: nat, p: nat, q: nat)
    requires n > 0 ==> at + 4 * n <= |b|
    requires LargestOr(b, at, n, p) && LargestOr(b, at, n, q)
    ensures p == q
  {
  }

  lemma GnuOnce(b: Bytes, t: nat, m: nat, n: nat)
    requires CountsGnu(b, t, m) && CountsGnu(b, t, n)
    ensures m == n
  {
    var (nbuckets, first, buckets) := (Le4(b, t), Le4(b, t + 4), t + 16 + 8 * Le4(b, t + 8));
    var p: nat :| LargestOr(b, buckets, nbuckets, p) && CountsFrom(b, buckets + 4 * nbuckets, first, p, m);
    var q: nat :| LargestOr(b, buckets, nbuckets, q) && CountsFrom(b, buckets + 4 * nbuckets, first, q, n);
    LargestOnce(b, buckets, nbuckets, p, q);
    if p >= first {
      OddOnce(b, buckets + 4 * nbuckets, p - first, m - first - 1, n - first - 1);
    }
  }

  lemma CountsOnce(b: Bytes, loads: seq<Load>, es: seq<Tagged>, m: nat, n: nat)
    requires Counts(b, loads, es, m) && Counts(b, loads, es, n)
    ensures m == n
  {
    if NoTag(es, 0x6fff_fef5) {
      var t: nat :| Points(loads, es, 4, t) && t + 8 <= |b| && m == Le4(b, t + 4);
      var u: nat :| Points(loads, es, 4, u) && u + 8 <= |b| && n == Le4(b, u + 4);
      PointsOnce(loads, es, 4, t, u);
    } else {
      var t: nat :| Points(loads, es, 0x6fff_fef5, t) && CountsGnu(b, t, m);
      var u: nat :| Points(loads, es, 0x6fff_fef5, u) && CountsGnu(b, u, n);
      PointsOnce(loads, es, 0x6fff_fef5, t, u);
      GnuOnce(b, t, m, n);
    }
  }

  lemma NearestOnce(es: seq<Tagged>, s: nat, a: nat, c: nat)
    requires Nearest(es, s, a) && Nearest(es, s, c)
    ensures a == c
  {
  }

  lemma QuotientOnce(start: nat, entsize: nat, end: nat, m: nat, n: nat)
    requires start + Area(m, entsize) <= end < start + Area(n, entsize) + entsize
    ensures m <= n
  {
    if m > n {
      AreaGrows(n + 1, m, entsize);
    }
  }

  lemma BeforeOnce(loads: seq<Load>, a: nat, start: nat, entsize: nat, m: nat, n: nat)
    requires RoomsBefore(loads, a, start, entsize, m) && RoomsBefore(loads, a, start, entsize, n)
    ensures m == n
  {
    var e: nat :| Where(loads, a, e) && if e <= start then m == 0 else start + Area(m, entsize) <= e < start + Area(m, entsize) + entsize;
    var f: nat :| Where(loads, a, f) && if f <= start then n == 0 else start + Area(n, entsize) <= f < start + Area(n, entsize) + entsize;
    WhereOnce(loads, a, e, f);
    if e > start {
      QuotientOnce(start, entsize, e, m, n);
      QuotientOnce(start, entsize, e, n, m);
    }
  }

  lemma RoomsOnce(loads: seq<Load>, es: seq<Tagged>, start: nat, entsize: nat, m: nat, n: nat)
    requires Rooms(loads, es, start, entsize, m) && Rooms(loads, es, start, entsize, n)
    ensures m == n
  {
    if s: nat, a: nat :| LastTag(es, 6, s) && Nearest(es, s, a) && RoomsBefore(loads, a, start, entsize, m) {
      var z: nat, c: nat :| LastTag(es, 6, z) && Nearest(es, z, c) && RoomsBefore(loads, c, start, entsize, n);
      LastTagOnce(es, 6, s, z);
      NearestOnce(es, s, a, c);
      BeforeOnce(loads, a, start, entsize, m, n);
    }
  }

  lemma TableOnce(b: Bytes, loads: seq<Load>, es: seq<Tagged>, t: Table, u: Table)
    requires TableIs(b, loads, es, t) && TableIs(b, loads, es, u)
    ensures t == u
  {
    PointsOnce(loads, es, 6, t.start, u.start);
    TagOrOnce(es, 11, 24, t.entsize, u.entsize);
    if !NoTag(es, 0x6fff_fff0) {
      PointsOnce(loads, es, 0x6fff_fff0, t.versym.value, u.versym.value);
    }
  }

  lemma SizeOnce(b: Bytes, loads: seq<Load>, es: seq<Tagged>, t: Table, m: nat, n: nat)
    requires SizeIs(b, loads, es, t, m) && SizeIs(b, loads, es, t, n)
    ensures m == n
  {
    var c: nat, r: nat :| Counts(b, loads, es, c) && Rooms(loads, es, t.start, t.entsize, r) && m == if c >= r then c else r;
    var d: nat, q: nat :| Counts(b, loads, es, d) && Rooms(loads, es, t.start, t.entsize, q) && n == if d >= q then d else q;
    CountsOnce(b, loads, es, c, d);
    RoomsOnce(loads, es, t.start, t.entsize, r, q);
  }

  // ------------------------------------------------------------------------ the symbols

  lemma VersionOnce(names: seq<Version>, raw: nat, x: Option<Name>, p: bool, y: Option<Name>, q: bool)
    requires VersionIs(names, raw, x, p) && VersionIs(names, raw, y, q)
    ensures x == y && p == q
  {
    if j: nat, k: nat :| FirstOf(names, raw % 32768, j) && FirstOf(names, raw % 32768, k) {
      assert forall l: nat :: FirstOf(names, raw % 32768, l) ==> l == j;
    }
  }

  lemma SpelledOnce(b: Bytes, strs: Strings, names: seq<Version>, t: Table, i: nat, x: Sym, y: Sym)
    requires strs.at + strs.size <= |b| && Spelled(b, strs, names, t, i, x) && Spelled(b, strs, names, t, i, y)
    ensures x == y
  {
    StringOnce(b, strs, Le4(b, EntryAt(t, i)), x.name, y.name);
    if t.versym.Some? {
      VersionOnce(names, Le2(b, t.versym.value + 2 * i), x.version, x.isDefault, y.version, y.isDefault);
    }
  }

  lemma SideOnce(b: Bytes, strs: Strings, names: seq<Version>, t: Table, n: nat, undef: bool, xs: seq<Sym>, at: seq<nat>, ys: seq<Sym>, bt: seq<nat>)
    requires SideSpells(b, strs, names, t, n, undef, xs, at) && SideSpells(b, strs, names, t, n, undef, ys, bt)
    ensures xs == ys
  {
    ChosenOnce(n, at, bt, Standing(b, t, undef));
    forall k | 0 <= k < |at| ensures xs[k] == ys[k] {
      SpelledOnce(b, strs, names, t, at[k], xs[k], ys[k]);
    }
  }

  lemma SidesOnce(b: Bytes, strs: Strings, names: seq<Version>, t: Table, n: nat, x: Elf, y: Elf)
    requires SidesAre(b, strs, names, t, n, x) && SidesAre(b, strs, names, t, n, y)
    ensures x.exports == y.exports && x.undefined == y.undefined
  {
    var p: seq<nat>, q: seq<nat> :| SideSpells(b, strs, names, t, n, true, x.undefined, p) && SideSpells(b, strs, names, t, n, false, x.exports, q);
    var r: seq<nat>, s: seq<nat> :| SideSpells(b, strs, names, t, n, true, y.undefined, r) && SideSpells(b, strs, names, t, n, false, y.exports, s);
    SideOnce(b, strs, names, t, n, true, x.undefined, p, y.undefined, r);
    SideOnce(b, strs, names, t, n, false, x.exports, q, y.exports, s);
  }

  lemma SymbolsOnce(b: Bytes, loads: seq<Load>, strs: Strings, es: seq<Tagged>, names: seq<Version>, x: Elf, y: Elf)
    requires strs.at + strs.size <= |b| && SymbolsAre(b, loads, strs, es, names, x) && SymbolsAre(b, loads, strs, es, names, y)
    ensures x.exports == y.exports && x.undefined == y.undefined
  {
    if !NoTag(es, 6) {
      var t: Table, n: nat :| TableIs(b, loads, es, t) && SizeIs(b, loads, es, t, n) && SidesAre(b, strs, names, t, n, x);
      var u: Table, m: nat :| TableIs(b, loads, es, u) && SizeIs(b, loads, es, u, m) && SidesAre(b, strs, names, u, m, y);
      TableOnce(b, loads, es, t, u);
      SizeOnce(b, loads, es, t, n, m);
      SidesOnce(b, strs, names, t, n, x, y);
    }
  }

  // ------------------------------------------------------------------------- the answer

  lemma DynamicallyOnce(b: Bytes, h: Headers, es: seq<Tagged>, x: Elf, y: Elf)
    requires Dynamically(b, h, es, x) && Dynamically(b, h, es, y)
    ensures x == y
  {
    if !(NoTag(es, 1) && NoTag(es, 14) && NoTag(es, 15) && NoTag(es, 29) && NoTag(es, 6)) {
      var s: Strings, ns :| DynamicBy(b, h, es, s, ns, x);
      var u: Strings, ms :| DynamicBy(b, h, es, u, ms, y);
      PointsOnce(h.loads, es, 5, s.at, u.at);
      LastTagOnce(es, 10, s.size, u.size);
      TextsOnce(b, s, es, x, y);
      VersionsOnce(b, h.loads, s, es, ns, ms);
      SymbolsOnce(b, h.loads, s, es, ns, x, y);
    }
  }

  lemma HeadersSpellOnce(b: Bytes, h: Headers, at: seq<nat>, x: Elf, g: Headers, bt: seq<nat>, y: Elf)
    requires 58 <= |b| && HeadersSpell(b, h, at, x) && HeadersSpell(b, g, bt, y)
    ensures x == y
  {
    HeadersOnce(b, Le2(b, 56), h, at, g, bt);
    if h.dynamic.Some? {
      var (off, size) := h.dynamic.value;
      var es :| TagsAre(b, off, size, es) && Dynamically(b, h, es, x);
      var fs :| TagsAre(b, off, size, fs) && Dynamically(b, g, fs, y);
      TagsOnce(b, off, size, es, fs);
      DynamicallyOnce(b, h, es, x, y);
    }
  }

  lemma SpellsOnce(b: Bytes, x: Elf, y: Elf)
    requires Spells(b, x) && Spells(b, y)
    ensures x == y
  {
    if Le2(b, 56) > 0 {
      var h, at :| HeadersSpell(b, h, at, x);
      var g, bt :| HeadersSpell(b, g, bt, y);
      HeadersSpellOnce(b, h, at, x, g, bt, y);
    }
  }
}
