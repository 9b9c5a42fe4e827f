/** Reading an ELF file looks at its headers, its dynamic section, its string table and the
    stretch of each other table up to where its walk ends: two files of one length that agree
    there parse to the same result, or to the same fault. */
module Locality {
  import opened Paths
  import opened Disk
  import opened Elf

  ghost predicate Same(b: Bytes, w: Bytes, lo: nat, hi: nat) {
    |b| == |w| && forall i :: lo <= i < hi && i < |w| ==> b[i] == w[i]
  }

  lemma {:induction false} WordSame(b: Bytes, w: Bytes, p: nat, n: nat)
    requires p + n <= |w| && Same(b, w, p, p + n)
    ensures Word(b, p, n) == Word(w, p, n)
    decreases n
  {
    if n > 0 {
      WordSame(b, w, p + 1, n - 1);
    }
  }

  /** Words that lie where the files agree are the same word. */
  lemma WordsSame(b: Bytes, w: Bytes, lo: nat, hi: nat)
    requires hi <= |w| && Same(b, w, lo, hi)
    ensures forall p: nat :: lo <= p && p + 2 <= hi ==> U16(b, p) == U16(w, p)
    ensures forall p: nat :: lo <= p && p + 4 <= hi ==> U32(b, p) == U32(w, p)
    ensures forall p: nat :: lo <= p && p + 8 <= hi ==> U64(b, p) == U64(w, p)
  {
    forall p: nat, n: nat | lo <= p && p + n <= hi ensures Word(b, p, n) == Word(w, p, n) {
      WordSame(b, w, p, n);
    }
  }

  // --------------------------------------------------------------------------- strings

  lemma {:induction false} NameSame(b: Bytes, w: Bytes, start: nat, p: nat, end: nat, e: Expect)
    requires start <= p && end <= |w| && Same(b, w, start, end)
    ensures NameFrom(b, start, p, end, e) == NameFrom(w, start, p, end, e)
    decreases end - p
  {
    if p < end {
      if b[p] == 0 {
        assert b[start..p] == w[start..p];
      } else {
        NameSame(b, w, start, p + 1, end, Expecting(e, b[p] as nat));
      }
    }
  }

  /** The string table lies in the file, and the two agree on it. */
  ghost predicate SameStrings(b: Bytes, w: Bytes, strs: Strings) {
    strs.at + strs.size <= |w| && Same(b, w, strs.at, strs.at + strs.size)
  }

  lemma StringSame(b: Bytes, w: Bytes, strs: Strings, from: nat)
    requires SameStrings(b, w, strs)
    ensures StringAt(b, strs, from) == StringAt(w, strs, from)
  {
    if from <= strs.size {
      NameSame(b, w, strs.at + from, strs.at + from, strs.at + strs.size, Lead);
    }
  }

  lemma {:induction false} StringsSame(b: Bytes, w: Bytes, strs: Strings, froms: seq<nat>)
    requires SameStrings(b, w, strs)
    ensures StringsAt(b, strs, froms) == StringsAt(w, strs, froms)
    decreases |froms|
  {
    if froms != [] {
      StringSame(b, w, strs, froms[0]);
      StringsSame(b, w, strs, froms[1..]);
    }
  }

  lemma NamedSame(b: Bytes, w: Bytes, strs: Strings, es: seq<Tagged>, tables: Tables, interp: bool)
    requires SameStrings(b, w, strs)
    ensures Named(b, strs, es, tables, interp) == Named(w, strs, es, tables, interp)
  {
    StringsSame(b, w, strs, Every(es, DT_NEEDED));
    forall v: nat ensures StringAt(b, strs, v) == StringAt(w, strs, v) {
      StringSame(b, w, strs, v);
    }
  }

  // --------------------------------------------------------------------------- headers

  lemma SegmentSame(b: Bytes, w: Bytes, start: nat)
    requires start + 56 <= |w| && Same(b, w, start, start + 56)
    ensures SegmentAt(b, start) == SegmentAt(w, start)
  {
    WordsSame(b, w, start, start + 56);
  }

  lemma {:induction false} HeadersSame(b: Bytes, w: Bytes, start: nat, size: nat, left: nat, h: Headers)
    requires size >= 56 && Same(b, w, start, start + Area(left, size))
    ensures ReadHeaders(b, start, size, left, h) == ReadHeaders(w, start, size, left, h)
    decreases left
  {
    if left > 0 && start + size <= |w| {
      SegmentSame(b, w, start);
      HeadersSame(b, w, start + size, size, left - 1, AddSegment(h, SegmentAt(w, start)));
    }
  }

  lemma TaggedSame(b: Bytes, w: Bytes, off: nat)
    requires off + 16 <= |w| && Same(b, w, off, off + 16)
    ensures U64(b, off) == U64(w, off) && U64(b, off + 8) == U64(w, off + 8)
  {
    WordsSame(b, w, off, off + 16);
  }

  lemma {:induction false} EntriesSame(b: Bytes, w: Bytes, off: nat, n: nat)
    requires off + 16 * n <= |w| && Same(b, w, off, off + 16 * n)
    ensures Entries(b, off, n) == Entries(w, off, n)
    decreases n
  {
    if n > 0 {
      var left: nat := n - 1;
      assert Same(b, w, off, off + 16) && Same(b, w, off + 16, off + 16 + 16 * left);
      TaggedSame(b, w, off);
      EntriesSame(b, w, off + 16, left);
    }
  }

  // ---------------------------------------------------------------------------- tables

  /** The chain of version definitions, as far as it is walked, ends by `lim`. */
  ghost predicate VerdefsWithin(w: Bytes, strs: Strings, t: nat, num: nat, lim: nat)
    requires strs.at + strs.size <= |w|
    decreases num
  {
    num == 0 ||
    (&& t + 20 <= lim && VerdefAt(w, t).Some?
     && var r := VerdefAt(w, t).value;
        && (r.base || t + r.aux + 4 <= lim)
        && (VerdefName(w, strs, t, r).Ok? && r.next != 0 ==> VerdefsWithin(w, strs, t + r.next, num - 1, lim)))
  }

  lemma VerdefSame(b: Bytes, w: Bytes, strs: Strings, t: nat, lim: nat)
    requires SameStrings(b, w, strs) && t + 20 <= lim <= |w| && Same(b, w, t, lim)
    ensures VerdefAt(b, t) == VerdefAt(w, t)
    ensures var r := VerdefAt(w, t).value;
      r.base || t + r.aux + 4 <= lim ==> VerdefName(b, strs, t, r) == VerdefName(w, strs, t, r)
  {
    WordsSame(b, w, t, lim);
    var r := VerdefAt(w, t).value;
    if t + r.aux + 4 <= lim {
      StringSame(b, w, strs, U32(w, t + r.aux).value);
    }
  }

  /** A chain reads as the names of its first record, `vs`, and the `rest`. */
  lemma VerdefsFirst(b: Bytes, strs: Strings, t: nat, num: nat, after: nat, left: nat, r: Verdef, vs: Result<seq<Version>>, rest: Result<seq<Version>>)
    requires strs.at + strs.size <= |b| && num == left + 1 && after == t + r.next
    requires VerdefAt(b, t) == Some(r) && VerdefName(b, strs, t, r) == vs
    requires vs.Ok? && r.next != 0 ==> Verdefs(b, strs, after, left) == rest
    ensures Verdefs(b, strs, t, num) == if vs.Err? || r.next == 0 then vs else Onto(vs.value, rest)
  {
  }

  lemma {:induction false} VerdefsSame(b: Bytes, w: Bytes, strs: Strings, t: nat, num: nat, lim: nat)
    requires SameStrings(b, w, strs) && lim <= |w| && Same(b, w, t, lim) && VerdefsWithin(w, strs, t, num, lim)
    ensures Verdefs(b, strs, t, num) == Verdefs(w, strs, t, num)
    decreases num
  {
    if num > 0 {
      VerdefSame(b, w, strs, t, lim);
      var r, left: nat := VerdefAt(w, t).value, num - 1;
      var vs, after := VerdefName(w, strs, t, r), t + r.next;
      if vs.Ok? && r.next != 0 {
        VerdefsSame(b, w, strs, after, left, lim);
      }
      var rest := Verdefs(w, strs, after, left);
      VerdefsFirst(b, strs, t, num, after, left, r, vs, rest);
      VerdefsFirst(w, strs, t, num, after, left, r, vs, rest);
    }
  }

  ghost predicate VernauxsWithin(w: Bytes, strs: Strings, a: nat, cnt: nat, lim: nat)
    requires strs.at + strs.size <= |w|
    decreases cnt
  {
    cnt == 0 ||
    (&& a + 16 <= lim && VernauxAt(w, a).Some?
     && var r := VernauxAt(w, a).value;
        (StringAt(w, strs, r.name).Ok? && r.next != 0 ==> VernauxsWithin(w, strs, a + r.next, cnt - 1, lim)))
  }

  lemma VernauxSame(b: Bytes, w: Bytes, a: nat, lim: nat)
    requires a + 16 <= lim <= |w| && Same(b, w, a, lim)
    ensures VernauxAt(b, a) == VernauxAt(w, a)
  {
    WordsSame(b, w, a, lim);
  }

  lemma {:induction false} VernauxsSame(b: Bytes, w: Bytes, strs: Strings, a: nat, cnt: nat, lim: nat)
    requires SameStrings(b, w, strs) && lim <= |w| && Same(b, w, a, lim) && VernauxsWithin(w, strs, a, cnt, lim)
    ensures Vernauxs(b, strs, a, cnt) == Vernauxs(w, strs, a, cnt)
    decreases cnt
  {
    if cnt > 0 {
      VernauxSame(b, w, a, lim);
      var r, left: nat := VernauxAt(w, a).value, cnt - 1;
      var after := a + r.next;
      var name := StringAt(w, strs, r.name);
      StringSame(b, w, strs, r.name);
      if name.Ok? && r.next != 0 {
        VernauxsSame(b, w, strs, after, left, lim);
      }
      var rest := Vernauxs(w, strs, after, left);
      VernauxsFirst(b, strs, a, cnt, after, left, r, name, rest);
      VernauxsFirst(w, strs, a, cnt, after, left, r, name, rest);
    }
  }

  lemma VernauxsFirst(b: Bytes, strs: Strings, a: nat, cnt: nat, after: nat, left: nat, r: Vernaux, name: Result<Name>, rest: Result<seq<Version>>)
    requires strs.at + strs.size <= |b| && cnt == left + 1 && after == a + r.next
    requires VernauxAt(b, a) == Some(r) && StringAt(b, strs, r.name) == name
    requires name.Ok? && r.next != 0 ==> Vernauxs(b, strs, after, left) == rest
    ensures Vernauxs(b, strs, a, cnt) ==
      if name.Err? then Err(name.fault)
      else if r.next == 0 then Ok([Version(r.other, name.value, false)])
      else Onto([Version(r.other, name.value, false)], rest)
  {
  }

  ghost predicate VerneedsWithin(w: Bytes, strs: Strings, t: nat, num: nat, lim: nat)
    requires strs.at + strs.size <= |w|
    decreases num
  {
    num == 0 ||
    (&& t + 16 <= lim && VerneedAt(w, t).Some?
     && var r := VerneedAt(w, t).value;
        && VernauxsWithin(w, strs, t + r.aux, r.cnt, lim)
        && (Vernauxs(w, strs, t + r.aux, r.cnt).Ok? && r.next != 0 ==> VerneedsWithin(w, strs, t + r.next, num - 1, lim)))
  }

  lemma VerneedSame(b: Bytes, w: Bytes, t: nat, lim: nat)
    requires t + 16 <= lim <= |w| && Same(b, w, t, lim)
    ensures VerneedAt(b, t) == VerneedAt(w, t)
  {
    WordsSame(b, w, t, lim);
  }

  /** A chain reads as its first record, `r`, whose versions are `vs`, and the `rest`. */
  lemma VerneedsFirst(b: Bytes, strs: Strings, t: nat, num: nat, after: nat, left: nat, r: Verneed, vs: Result<seq<Version>>, rest: Result<seq<Version>>)
    requires strs.at + strs.size <= |b| && num == left + 1 && after == t + r.next
    requires VerneedAt(b, t) == Some(r) && Vernauxs(b, strs, t + r.aux, r.cnt) == vs
    requires vs.Ok? && r.next != 0 ==> Verneeds(b, strs, after, left) == rest
    ensures Verneeds(b, strs, t, num) == if vs.Err? || r.next == 0 then vs else Onto(vs.value, rest)
  {
  }

  /** A chain that stays in a stretch is a first record with versions that do, and a rest. */
  lemma VerneedsHead(w: Bytes, strs: Strings, t: nat, num: nat, lim: nat, r: Verneed)
    requires strs.at + strs.size <= |w| && VerneedsWithin(w, strs, t, num, lim) && num > 0 && VerneedAt(w, t) == Some(r)
    ensures t + 16 <= lim && VernauxsWithin(w, strs, t + r.aux, r.cnt, lim)
    ensures Vernauxs(w, strs, t + r.aux, r.cnt).Ok? && r.next != 0 ==> VerneedsWithin(w, strs, t + r.next, num - 1, lim)
  {
  }

  /** Chains whose first records and versions lie where the files agree are the same if their
      rests are. */
  lemma VerneedsOnto(b: Bytes, w: Bytes, strs: Strings, t: nat, num: nat, after: nat, left: nat, lim: nat, r: Verneed)
    requires SameStrings(b, w, strs) && t + 16 <= lim <= |w| && Same(b, w, t, lim) && num == left + 1
    requires VerneedAt(w, t) == Some(r) && VernauxsWithin(w, strs, t + r.aux, r.cnt, lim) && after == t + r.next
    requires Vernauxs(w, strs, t + r.aux, r.cnt).Ok? && r.next != 0 ==>
      Verneeds(b, strs, after, left) == Verneeds(w, strs, after, left)
    ensures Verneeds(b, strs, t, num) == Verneeds(w, strs, t, num)
  {
    VerneedSame(b, w, t, lim);
    VernauxsSame(b, w, strs, t + r.aux, r.cnt, lim);
    var vs, rest := Vernauxs(w, strs, t + r.aux, r.cnt), Verneeds(w, strs, after, left);
    VerneedsFirst(b, strs, t, num, after, left, r, vs, rest);
    VerneedsFirst(w, strs, t, num, after, left, r, vs, rest);
  }

  lemma {:induction false} VerneedsSame(b: Bytes, w: Bytes, strs: Strings, t: nat, num: nat, lim: nat)
    requires SameStrings(b, w, strs) && lim <= |w| && Same(b, w, t, lim) && VerneedsWithin(w, strs, t, num, lim)
    ensures Verneeds(b, strs, t, num) == Verneeds(w, strs, t, num)
    decreases num
  {
    if num > 0 {
      var r, left: nat := VerneedAt(w, t).value, num - 1;
      var after := t + r.next;
      VerneedsHead(w, strs, t, num, lim, r);
      if Vernauxs(w, strs, t + r.aux, r.cnt).Ok? && r.next != 0 {
        VerneedsSame(b, w, strs, after, left, lim);
      }
      VerneedsOnto(b, w, strs, t, num, after, left, lim, r);
    }
  }

  lemma {:induction false} LastBucketSame(b: Bytes, w: Bytes, at: nat, n: nat)
    requires at + 4 * n <= |w| && Same(b, w, at, at + 4 * n)
    ensures LastBucket(b, at, n) == LastBucket(w, at, n)
    decreases n
  {
    WordsSame(b, w, at, at + 4 * n);
    if n > 0 {
      LastBucketSame(b, w, at, n - 1);
    }
  }

  ghost predicate ChainWithin(w: Bytes, at: nat, i: nat, lim: nat)
    requires lim <= |w|
    decreases |w| - 4 * i
  {
    && at + 4 * i + 4 <= lim
    && (U32(w, at + 4 * i).value % 2 == 1 || ChainWithin(w, at, i + 1, lim))
  }

  lemma {:induction false} ChainSame(b: Bytes, w: Bytes, at: nat, i: nat, lim: nat)
    requires lim <= |w| && Same(b, w, at, lim) && ChainWithin(w, at, i, lim)
    ensures ChainEnd(b, at, i) == ChainEnd(w, at, i)
    decreases |w| - 4 * i
  {
    WordsSame(b, w, at, lim);
    assert U32(b, at + 4 * i) == U32(w, at + 4 * i);
    if U32(w, at + 4 * i).value % 2 == 0 {
      ChainSame(b, w, at, i + 1, lim);
    }
  }

  /** A hash table ends with its buckets, or with the chain its last bucket starts. */
  ghost predicate GnuWithin(w: Bytes, t: nat, lim: nat) {
    && t + 12 <= lim <= |w|
    && var g := GnuHeaderAt(w, t).value;
       var chains := g.buckets + 4 * g.nbuckets;
       && (g.nbuckets > 0 ==> chains <= lim)
       && var last := if g.nbuckets == 0 then 0 else LastBucket(w, g.buckets, g.nbuckets);
          (last >= g.symoffset ==> ChainWithin(w, chains, last - g.symoffset, lim))
  }

  lemma GnuHeaderSame(b: Bytes, w: Bytes, t: nat, lim: nat)
    requires t + 12 <= lim <= |w| && Same(b, w, t, lim)
    ensures GnuHeaderAt(b, t) == GnuHeaderAt(w, t)
  {
    WordsSame(b, w, t, lim);
  }

  lemma GnuChainsSame(b: Bytes, w: Bytes, g: GnuHeader, last: nat, lim: nat)
    requires lim <= |w| && Same(b, w, g.buckets + 4 * g.nbuckets, lim)
    requires last >= g.symoffset ==> ChainWithin(w, g.buckets + 4 * g.nbuckets, last - g.symoffset, lim)
    ensures GnuChains(b, g, last) == GnuChains(w, g, last)
  {
    if last >= g.symoffset {
      ChainSame(b, w, g.buckets + 4 * g.nbuckets, last - g.symoffset, lim);
    }
  }

  lemma GnuSame(b: Bytes, w: Bytes, t: nat, lim: nat)
    requires lim <= |w| && Same(b, w, t, lim) && GnuWithin(w, t, lim)
    ensures GnuCount(b, t) == GnuCount(w, t)
  {
    GnuHeaderSame(b, w, t, lim);
    var g := GnuHeaderAt(w, t).value;
    if g.nbuckets > 0 {
      LastBucketSame(b, w, g.buckets, g.nbuckets);
    }
    GnuChainsSame(b, w, g, if g.nbuckets == 0 then 0 else LastBucket(w, g.buckets, g.nbuckets), lim);
  }

  /** The first `n` entries of a symbol table and their version words. */
  ghost predicate SameTable(b: Bytes, w: Bytes, t: Table, n: nat) {
    && t.entsize >= 24 && EntryAt(t, n) <= |w| && Same(b, w, t.start, EntryAt(t, n))
    && (t.versym.Some? ==> t.versym.value + 2 * n <= |w| && Same(b, w, t.versym.value, t.versym.value + 2 * n))
  }

  lemma EntrySame(b: Bytes, w: Bytes, e: nat)
    requires e + 24 <= |w| && Same(b, w, e, e + 24)
    ensures U32(b, e) == U32(w, e) && b[e + 4] == w[e + 4] && U64(b, e + 16) == U64(w, e + 16) && U16(b, e + 6) == U16(w, e + 6)
  {
    WordsSame(b, w, e, e + 24);
  }

  /** An entry, its version word and its name make the symbol. */
  lemma SymbolFrom(b: Bytes, w: Bytes, strs: Strings, names: seq<Version>, t: Table, i: nat, e: nat)
    requires strs.at + strs.size <= |b| == |w| && e == EntryAt(t, i) && e + 24 <= |w|
    requires U32(b, e) == U32(w, e) && b[e + 4] == w[e + 4] && U64(b, e + 16) == U64(w, e + 16)
    requires t.versym.Some? ==> U16(b, t.versym.value + 2 * i) == U16(w, t.versym.value + 2 * i)
    requires StringAt(b, strs, U32(w, e).value) == StringAt(w, strs, U32(w, e).value)
    ensures SymbolAt(b, strs, names, t, i) == SymbolAt(w, strs, names, t, i)
  {
  }

  lemma SymbolSame(b: Bytes, w: Bytes, strs: Strings, names: seq<Version>, t: Table, i: nat)
    requires SameStrings(b, w, strs) && EntryAt(t, i) + 24 <= |w| && Same(b, w, EntryAt(t, i), EntryAt(t, i) + 24)
    requires t.versym.Some? ==> var v := t.versym.value + 2 * i; v + 2 <= |w| && Same(b, w, v, v + 2)
    ensures SymbolAt(b, strs, names, t, i) == SymbolAt(w, strs, names, t, i)
    ensures Undefined(b, t, i) == Undefined(w, t, i)
  {
    var e := EntryAt(t, i);
    EntrySame(b, w, e);
    if t.versym.Some? {
      VersymSame(b, w, t.versym.value + 2 * i);
    }
    StringSame(b, w, strs, U32(w, e).value);
    SymbolFrom(b, w, strs, names, t, i, e);
  }

  lemma VersymSame(b: Bytes, w: Bytes, v: nat)
    requires v + 2 <= |w| && Same(b, w, v, v + 2)
    ensures U16(b, v) == U16(w, v)
  {
    WordsSame(b, w, v, v + 2);
  }

  lemma TableSame(b: Bytes, w: Bytes, t: Table, n: nat, left: nat)
    requires n == left + 1 && SameTable(b, w, t, n)
    ensures SameTable(b, w, t, left) && EntryAt(t, left) + 24 <= |w| && Same(b, w, EntryAt(t, left), EntryAt(t, left) + 24)
    ensures t.versym.Some? ==> var v := t.versym.value + 2 * left; v + 2 <= |w| && Same(b, w, v, v + 2)
  {
    assert EntryAt(t, n) == EntryAt(t, left) + t.entsize;
  }

  lemma {:induction false} SymbolsSame(b: Bytes, w: Bytes, strs: Strings, names: seq<Version>, t: Table, n: nat)
    requires SameStrings(b, w, strs) && SameTable(b, w, t, n)
    ensures SymbolsUpTo(b, strs, names, t, n) == SymbolsUpTo(w, strs, names, t, n)
    decreases n
  {
    if n > 0 {
      var left: nat := n - 1;
      TableSame(b, w, t, n, left);
      SymbolsSame(b, w, strs, names, t, left);
      SymbolSame(b, w, strs, names, t, left);
      var so, entry, undefined := SymbolsUpTo(w, strs, names, t, left), SymbolAt(w, strs, names, t, left), Undefined(w, t, left);
      assert SymbolsUpTo(w, strs, names, t, n) == Sided(so, entry, undefined);
      assert SymbolsUpTo(b, strs, names, t, n) == Sided(so, entry, undefined);
    }
  }

  // ------------------------------------------------------------------------ all the tables

  ghost predicate SymbolsWithin(w: Bytes, loads: seq<Load>, es: seq<Tagged>, start: nat, lim: nat) {
    var entsize := LastOr(es, DT_SYMENT, 24);
    entsize >= 24 && SymbolsEnd(loads, es).Ok? ==>
      var n := SymbolCount(w, loads, es, start, entsize, SymbolsEnd(loads, es).value);
      n.Ok? ==> start + Area(n.value, entsize) <= lim
  }

  /** A version word for every symbol. */
  ghost predicate VersymWithin(w: Bytes, loads: seq<Load>, es: seq<Tagged>, at: nat, lim: nat) {
    var entsize := LastOr(es, DT_SYMENT, 24);
    Last(es, DT_SYMTAB).Some? && entsize >= 24 && SymbolsEnd(loads, es).Ok? && OffsetOf(loads, Last(es, DT_SYMTAB).value).Ok? ==>
      var n := SymbolCount(w, loads, es, OffsetOf(loads, Last(es, DT_SYMTAB).value).value, entsize, SymbolsEnd(loads, es).value);
      n.Ok? ==> at + 2 * n.value <= lim
  }

  /** One table, told by its tag, read from `at` on, stays before `lim`. */
  ghost predicate TableWithin(w: Bytes, loads: seq<Load>, strs: Strings, es: seq<Tagged>, tag: nat, at: nat, lim: nat)
    requires strs.at + strs.size <= |w|
  {
    if tag == DT_SYMTAB then SymbolsWithin(w, loads, es, at, lim)
    else if tag == DT_HASH then Last(es, DT_GNU_HASH).Some? || at + 8 <= lim
    else if tag == DT_GNU_HASH then GnuWithin(w, at, lim)
    else if tag == DT_VERSYM then VersymWithin(w, loads, es, at, lim)
    else if tag == DT_VERDEF then VerdefsWithin(w, strs, at, LastOr(es, DT_VERDEFNUM, 0), lim)
    else VerneedsWithin(w, strs, at, LastOr(es, DT_VERNEEDNUM, 0), lim)
  }

  const TABLES := {DT_SYMTAB, DT_HASH, DT_GNU_HASH, DT_VERSYM, DT_VERDEF, DT_VERNEED}

  /** Two files agree on a table up to where its walk ends. */
  ghost predicate SameTagged(b: Bytes, w: Bytes, loads: seq<Load>, strs: Strings, es: seq<Tagged>, tag: nat, at: nat)
    requires strs.at + strs.size <= |w|
  {
    exists lim: nat :: lim <= |w| && TableWithin(w, loads, strs, es, tag, at, lim) && Same(b, w, at, lim)
  }

  ghost predicate SameTables(b: Bytes, w: Bytes, loads: seq<Load>, strs: Strings, es: seq<Tagged>)
    requires strs.at + strs.size <= |w|
  {
    forall tag :: tag in TABLES && Last(es, tag).Some? && OffsetOf(loads, Last(es, tag).value).Ok? ==>
      SameTagged(b, w, loads, strs, es, tag, OffsetOf(loads, Last(es, tag).value).value)
  }

  lemma VersionsSame(b: Bytes, w: Bytes, loads: seq<Load>, strs: Strings, es: seq<Tagged>)
    requires SameStrings(b, w, strs) && SameTables(b, w, loads, strs, es)
    ensures Versions(b, loads, strs, es) == Versions(w, loads, strs, es)
  {
    if Last(es, DT_VERDEF).Some? && OffsetOf(loads, Last(es, DT_VERDEF).value).Ok? {
      var t := OffsetOf(loads, Last(es, DT_VERDEF).value).value;
      assert SameTagged(b, w, loads, strs, es, DT_VERDEF, t);
      var lim: nat :| lim <= |w| && TableWithin(w, loads, strs, es, DT_VERDEF, t, lim) && Same(b, w, t, lim);
      VerdefsSame(b, w, strs, t, LastOr(es, DT_VERDEFNUM, 0), lim);
    }
    if Last(es, DT_VERNEED).Some? && OffsetOf(loads, Last(es, DT_VERNEED).value).Ok? {
      var t := OffsetOf(loads, Last(es, DT_VERNEED).value).value;
      assert SameTagged(b, w, loads, strs, es, DT_VERNEED, t);
      var lim: nat :| lim <= |w| && TableWithin(w, loads, strs, es, DT_VERNEED, t, lim) && Same(b, w, t, lim);
      VerneedsSame(b, w, strs, t, LastOr(es, DT_VERNEEDNUM, 0), lim);
    }
  }

  lemma CountSame(b: Bytes, w: Bytes, loads: seq<Load>, strs: Strings, es: seq<Tagged>)
    requires SameStrings(b, w, strs) && SameTables(b, w, loads, strs, es)
    ensures Count(b, loads, Last(es, DT_HASH), Last(es, DT_GNU_HASH)) == Count(w, loads, Last(es, DT_HASH), Last(es, DT_GNU_HASH))
  {
    if Last(es, DT_GNU_HASH).Some? {
      if OffsetOf(loads, Last(es, DT_GNU_HASH).value).Ok? {
        var t := OffsetOf(loads, Last(es, DT_GNU_HASH).value).value;
        assert SameTagged(b, w, loads, strs, es, DT_GNU_HASH, t);
        var lim: nat :| lim <= |w| && TableWithin(w, loads, strs, es, DT_GNU_HASH, t, lim) && Same(b, w, t, lim);
        GnuSame(b, w, t, lim);
      }
    } else if Last(es, DT_HASH).Some? && OffsetOf(loads, Last(es, DT_HASH).value).Ok? {
      var t := OffsetOf(loads, Last(es, DT_HASH).value).value;
      assert SameTagged(b, w, loads, strs, es, DT_HASH, t);
      var lim: nat :| lim <= |w| && TableWithin(w, loads, strs, es, DT_HASH, t, lim) && Same(b, w, t, lim);
      WordsSame(b, w, t, lim);
    }
  }

  /** The symbol table that is read, if it lies in the file. */
  lemma TableAgrees(b: Bytes, w: Bytes, loads: seq<Load>, strs: Strings, es: seq<Tagged>, t: Table, n: nat)
    requires SameStrings(b, w, strs) && SameTables(b, w, loads, strs, es) && Last(es, DT_SYMTAB).Some? && SymbolsEnd(loads, es).Ok?
    requires OffsetOf(loads, Last(es, DT_SYMTAB).value) == Ok(t.start) && t.entsize == LastOr(es, DT_SYMENT, 24) && t.entsize >= 24
    requires SymbolCount(w, loads, es, t.start, t.entsize, SymbolsEnd(loads, es).value) == Ok(n) && EntryAt(t, n) <= |w|
    requires match Last(es, DT_VERSYM) case None => t.versym == None case Some(a) => t.versym.Some? && OffsetOf(loads, a) == Ok(t.versym.value)
    ensures SameTable(b, w, t, n)
  {
    assert SameTagged(b, w, loads, strs, es, DT_SYMTAB, t.start);
    var lim: nat :| lim <= |w| && TableWithin(w, loads, strs, es, DT_SYMTAB, t.start, lim) && Same(b, w, t.start, lim);
    if t.versym.Some? {
      assert SameTagged(b, w, loads, strs, es, DT_VERSYM, t.versym.value);
      var vlim: nat :| vlim <= |w| && TableWithin(w, loads, strs, es, DT_VERSYM, t.versym.value, vlim) && Same(b, w, t.versym.value, vlim);
    }
  }

  lemma SymbolTableSame(b: Bytes, w: Bytes, loads: seq<Load>, strs: Strings, names: seq<Version>, es: seq<Tagged>)
    requires SameStrings(b, w, strs) && SameTables(b, w, loads, strs, es) && SymbolsEnd(loads, es).Ok?
    ensures Symbols(b, loads, strs, names, es, SymbolsEnd(loads, es).value) == Symbols(w, loads, strs, names, es, SymbolsEnd(loads, es).value)
  {
    var entsize := LastOr(es, DT_SYMENT, 24);
    CountSame(b, w, loads, strs, es);
    if Last(es, DT_SYMTAB).Some? && entsize >= 24 && OffsetOf(loads, Last(es, DT_SYMTAB).value).Ok? {
      var start := OffsetOf(loads, Last(es, DT_SYMTAB).value).value;
      var n := SymbolCount(w, loads, es, start, entsize, SymbolsEnd(loads, es).value);
      if n.Ok? && start + Area(n.value, entsize) <= |w| {
        match Last(es, DT_VERSYM)
        case None =>
          var t := Table(start, entsize, None);
          TableAgrees(b, w, loads, strs, es, t, n.value);
          SymbolsSame(b, w, strs, names, t, n.value);
        case Some(a) =>
          if OffsetOf(loads, a).Ok? {
            var t := Table(start, entsize, Some(OffsetOf(loads, a).value));
            TableAgrees(b, w, loads, strs, es, t, n.value);
            SymbolsSame(b, w, strs, names, t, n.value);
          }
      }
    }
  }

  lemma TablesSame(b: Bytes, w: Bytes, loads: seq<Load>, strs: Strings, es: seq<Tagged>, interp: bool)
    requires SameStrings(b, w, strs) && SameTables(b, w, loads, strs, es) && SymbolsEnd(loads, es).Ok?
    ensures ReadTables(b, loads, strs, es, SymbolsEnd(loads, es).value, interp) == ReadTables(w, loads, strs, es, SymbolsEnd(loads, es).value, interp)
  {
    VersionsSame(b, w, loads, strs, es);
    var names := Versions(w, loads, strs, es);
    if names.Ok? {
      SymbolTableSame(b, w, loads, strs, names.value, es);
      var tables := Symbols(w, loads, strs, names.value, es, SymbolsEnd(loads, es).value);
      if tables.Ok? {
        NamedSame(b, w, strs, es, tables.value, interp);
      }
    }
  }

  // ------------------------------------------------------------------------ the whole file

  /** What the dynamic section `es` leads to: nothing, without a string table of stated size
      inside the file. */
  ghost predicate SameDynamic(b: Bytes, w: Bytes, h: Headers, es: seq<Tagged>) {
    Last(es, DT_STRTAB).Some? && Last(es, DT_STRSZ).Some? && OffsetOf(h.loads, Last(es, DT_STRTAB).value).Ok? ==>
      var strs := Strings(OffsetOf(h.loads, Last(es, DT_STRTAB).value).value, Last(es, DT_STRSZ).value);
      strs.at + strs.size <= |w| ==> SameStrings(b, w, strs) && SameTables(b, w, h.loads, strs, es)
  }

  ghost predicate SameBody(b: Bytes, w: Bytes, h: Headers) {
    h.dynamic.Some? ==>
      var (off, size) := h.dynamic.value;
      off + size <= |w| ==> Same(b, w, off, off + size) && SameDynamic(b, w, h, Entries(w, off, size / 16))
  }

  /** A file's program headers, if it has any to read. */
  ghost function HeadersOf(w: Bytes): Result<Headers> {
    if |w| < 64 || U16(w, 54).value < 56 then Err(TruncatedHeader)
    else ReadHeaders(w, U64(w, 32).value, U16(w, 54).value, U16(w, 56).value, Headers([], None, false))
  }

  /** The file headers agree, the program headers, and all they lead to. */
  ghost predicate Alike(b: Bytes, w: Bytes) {
    && |b| == |w| && Same(b, w, 0, 64)
    && (|w| >= 64 && U16(w, 54).value >= 56 ==>
          var (phoff, size, n) := (U64(w, 32).value, U16(w, 54).value, U16(w, 56).value);
          && Same(b, w, phoff, phoff + Area(n, size))
          && (HeadersOf(w).Ok? ==> SameBody(b, w, HeadersOf(w).value)))
  }

  lemma DynamicSame(b: Bytes, w: Bytes, h: Headers, es: seq<Tagged>)
    requires |b| == |w| && SameDynamic(b, w, h, es)
    ensures ReadDynamic(b, h, es) == ReadDynamic(w, h, es)
  {
    if Last(es, DT_STRTAB).Some? && Last(es, DT_STRSZ).Some? && OffsetOf(h.loads, Last(es, DT_STRTAB).value).Ok? {
      var strs := Strings(OffsetOf(h.loads, Last(es, DT_STRTAB).value).value, Last(es, DT_STRSZ).value);
      if strs.at + strs.size <= |w| && SymbolsEnd(h.loads, es).Ok? {
        TablesSame(b, w, h.loads, strs, es, h.interp);
      }
    }
  }

  lemma BodySame(b: Bytes, w: Bytes, h: Headers)
    requires |b| == |w| && SameBody(b, w, h)
    ensures ReadBody(b, h) == ReadBody(w, h)
  {
    if h.dynamic.Some? {
      var (off, size) := h.dynamic.value;
      if off + size <= |w| {
        EntriesSame(b, w, off, size / 16);
        DynamicSame(b, w, h, Entries(w, off, size / 16));
      }
    }
  }

  /** The file header's fields read the same wherever its 64 bytes agree. */
  lemma PrefixSame(b: Bytes, w: Bytes)
    requires 64 <= |w| && Same(b, w, 0, 64)
    ensures StartsElf(b) == StartsElf(w)
    ensures b[4] == w[4] && b[5] == w[5] && U16(b, 18) == U16(w, 18)
    ensures U64(b, 32) == U64(w, 32) && U16(b, 54) == U16(w, 54) && U16(b, 56) == U16(w, 56)
  {
    WordsSame(b, w, 0, 64);
    assert b[..4] == w[..4];
  }

  lemma HeadersOfSame(b: Bytes, w: Bytes)
    requires |w| >= 64 && U16(w, 54).value >= 56 && Same(b, w, 0, 64)
    requires Same(b, w, U64(w, 32).value, U64(w, 32).value + Area(U16(w, 56).value, U16(w, 54).value))
    ensures HeadersOf(b) == HeadersOf(w)
  {
    PrefixSame(b, w);
    HeadersSame(b, w, U64(w, 32).value, U16(w, 54).value, U16(w, 56).value, Headers([], None, false));
  }

  /** Past the file header, parsing is reading the program headers and what they lead to. */
  lemma ParseHeaders(b: Bytes, w: Bytes)
    requires 64 <= |w| && Same(b, w, 0, 64)
    requires U16(w, 54).value >= 56 ==> HeadersOf(b) == HeadersOf(w) && (HeadersOf(w).Ok? ==> ReadBody(b, HeadersOf(w).value) == ReadBody(w, HeadersOf(w).value))
    ensures Parse(b) == Parse(w)
  {
    PrefixSame(b, w);
  }

  /** Parsing is local: files alike in what their headers lead to parse alike, whatever they
      hold elsewhere. */
  lemma ParseLocal(b: Bytes, w: Bytes)
    requires Alike(b, w)
    ensures Parse(b) == Parse(w)
  {
    if |w| < 64 {
      assert b == w;
    } else {
      if U16(w, 54).value >= 56 {
        HeadersOfSame(b, w);
        if HeadersOf(w).Ok? {
          BodySame(b, w, HeadersOf(w).value);
        }
      }
      ParseHeaders(b, w);
    }
  }
}
