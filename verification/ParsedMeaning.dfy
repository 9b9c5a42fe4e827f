/** What the parser's answer is of a whole file: where its tables stand, how many symbols there
    are, and which bytes each part of the answer is. Tags and types are spelled by number: figure
    5-10 of the System V gABI and the Symbol Versioning section of the LSB Core Specification. */
module ParsedMeaning {
  import opened Paths
  import opened Disk
  import opened Elf
  import opened ElfMeaning
  import opened SymbolMeaning
  import GnuHash

  // ------------------------------------------------------------------ how many symbols

  /** Word `k` of a table of four byte words. */
  function Nth(b: Bytes, at: nat, k: nat): nat
    requires at + 4 * k + 4 <= |b|
  {
    Le4(b, at + 4 * k)
  }

  /** The largest of the buckets. */
  ghost predicate Largest(b: Bytes, at: nat, n: nat, last: nat)
    requires at + 4 * n <= |b|
  {
    (forall k: nat :: k < n ==> Nth(b, at, k) <= last) && exists k: nat :: k < n && Nth(b, at, k) == last
  }

  /** The first odd word of the chain from `i` on. */
  ghost predicate FirstOdd(b: Bytes, at: nat, i: nat, end: nat) {
    && i <= end && at + 4 * end + 4 <= |b| && Nth(b, at, end) % 2 == 1
    && forall k: nat :: i <= k < end ==> Nth(b, at, k) % 2 == 0
  }

  /** The count by a GNU hash table: behind the last symbol of the chain the largest bucket
      starts, or the first hashed symbol when no bucket reaches that far. */
  ghost predicate CountsGnu(b: Bytes, t: nat, n: nat) {
    && t + 12 <= |b|
    && var (nbuckets, first, buckets) := (Le4(b, t), Le4(b, t + 4), t + 16 + 8 * Le4(b, t + 8));
    && (nbuckets > 0 ==> buckets + 4 * nbuckets <= |b|)
    && exists last: nat :: LargestOr(b, buckets, nbuckets, last) && CountsFrom(b, buckets + 4 * nbuckets, first, last, n)
  }

  ghost predicate LargestOr(b: Bytes, at: nat, n: nat, last: nat)
    requires n > 0 ==> at + 4 * n <= |b|
  {
    if n == 0 then last == 0 else Largest(b, at, n, last)
  }

  ghost predicate CountsFrom(b: Bytes, at: nat, first: nat, last: nat, n: nat) {
    if last < first then n == first else n > first && FirstOdd(b, at, last - first, n - first - 1)
  }

  lemma {:induction false} OddMeans(b: Bytes, at: nat, i: nat, end: nat)
    requires ChainEnd(b, at, i) == Some(end)
    ensures FirstOdd(b, at, i, end)
    decreases |b| - 4 * i
  {
    WordsAre(b, at + 4 * i);
    assert Nth(b, at, i) == U32(b, at + 4 * i).value;
    if Nth(b, at, i) % 2 == 0 {
      OddMeans(b, at, i + 1, end);
    }
  }

  lemma LargestMeans(b: Bytes, at: nat, n: nat)
    requires n > 0 && at + 4 * n <= |b|
    ensures Largest(b, at, n, LastBucket(b, at, n))
  {
    GnuHash.LastBucketIs(b, at, n);
    forall k: nat | k < n ensures U32(b, at + 4 * k).value == Nth(b, at, k) {
      WordsAre(b, at + 4 * k);
    }
    var k :| 0 <= k < n && U32(b, at + 4 * k).value == LastBucket(b, at, n);
    assert Nth(b, at, k) == LastBucket(b, at, n);
  }

  lemma HeaderWords(b: Bytes, t: nat)
    ensures GnuHeaderAt(b, t) == if t + 12 > |b| then None else Some(GnuHeader(Le4(b, t), Le4(b, t + 4), t + 16 + 8 * Le4(b, t + 8)))
  {
    WordsAre(b, t);
    WordsAre(b, t + 4);
    WordsAre(b, t + 8);
  }

  lemma ChainsMean(b: Bytes, g: GnuHeader, last: nat, n: nat)
    requires GnuChains(b, g, last) == Ok(n)
    ensures CountsFrom(b, g.buckets + 4 * g.nbuckets, g.symoffset, last, n)
  {
    if last >= g.symoffset {
      OddMeans(b, g.buckets + 4 * g.nbuckets, last - g.symoffset, n - g.symoffset - 1);
    }
  }

  /** The count by a header read. */
  lemma GnuBy(b: Bytes, t: nat, n: nat, g: GnuHeader) returns (last: nat)
    requires GnuCount(b, t) == Ok(n) && GnuHeaderAt(b, t) == Some(g)
    ensures g.nbuckets > 0 ==> g.buckets + 4 * g.nbuckets <= |b|
    ensures LargestOr(b, g.buckets, g.nbuckets, last) && CountsFrom(b, g.buckets + 4 * g.nbuckets, g.symoffset, last, n)
  {
    last := 0;
    if g.nbuckets > 0 {
      last := LastBucket(b, g.buckets, g.nbuckets);
      LargestMeans(b, g.buckets, g.nbuckets);
    }
    ChainsMean(b, g, last, n);
  }

  lemma GnuMeans(b: Bytes, t: nat, n: nat)
    requires GnuCount(b, t) == Ok(n)
    ensures CountsGnu(b, t, n)
  {
    HeaderWords(b, t);
    var last := GnuBy(b, t, n, GnuHeaderAt(b, t).value);
  }

  /** The GNU table counts before the other one does: there the number of chains, its second word,
      is the count. */
  ghost predicate Counts(b: Bytes, loads: seq<Load>, es: seq<Tagged>, n: nat) {
    if NoTag(es, 0x6fff_fef5) then exists t: nat :: Points(loads, es, 4, t) && t + 8 <= |b| && n == Le4(b, t + 4)
    else exists t: nat :: Points(loads, es, 0x6fff_fef5, t) && CountsGnu(b, t, n)
  }

  /** Where in the file the last entry of a tag points. */
  ghost predicate Points(loads: seq<Load>, es: seq<Tagged>, tag: nat, off: nat) {
    exists addr: nat :: LastTag(es, tag, addr) && Where(loads, addr, off)
  }

  lemma PointsMeans(loads: seq<Load>, es: seq<Tagged>, tag: nat, addr: nat, off: nat)
    requires Last(es, tag) == Some(addr) && OffsetOf(loads, addr) == Ok(off)
    ensures Points(loads, es, tag, off) && !NoTag(es, tag)
  {
    LastMeans(es, tag);
    OffsetMeans(loads, addr, off);
  }

  lemma CountMeans(b: Bytes, loads: seq<Load>, es: seq<Tagged>, n: nat)
    requires Count(b, loads, Last(es, DT_HASH), Last(es, DT_GNU_HASH)) == Ok(n)
    ensures Counts(b, loads, es, n)
  {
    var gnu, hash := Last(es, DT_GNU_HASH), Last(es, DT_HASH);
    LastMeans(es, DT_GNU_HASH);
    if gnu.Some? {
      var t := OffsetOf(loads, gnu.value).value;
      PointsMeans(loads, es, DT_GNU_HASH, gnu.value, t);
      GnuMeans(b, t, n);
    } else {
      var t := OffsetOf(loads, hash.value).value;
      PointsMeans(loads, es, DT_HASH, hash.value, t);
      WordsAre(b, t + 4);
    }
  }

  /** An address one of the tables beside the symbols starts at: the strings, the version words,
      the versions and the hash tables. */
  ghost predicate Beside(es: seq<Tagged>, a: nat) {
    || LastTag(es, 5, a) || LastTag(es, 0x6fff_fff0, a) || LastTag(es, 0x6fff_fffc, a)
    || LastTag(es, 0x6fff_fffe, a) || LastTag(es, 4, a) || LastTag(es, 0x6fff_fef5, a)
  }

  /** The nearest of them above the symbols. */
  ghost predicate Nearest(es: seq<Tagged>, s: nat, a: nat) {
    Beside(es, a) && a > s && forall c: nat :: Beside(es, c) ==> c <= s || a <= c
  }

  /** How many entries there is room for before that one, in the file. */
  ghost predicate Rooms(loads: seq<Load>, es: seq<Tagged>, start: nat, entsize: nat, n: nat) {
    || ((forall s: nat, a: nat :: LastTag(es, 6, s) ==> !Nearest(es, s, a)) && n == 0)
    || exists s: nat, a: nat :: LastTag(es, 6, s) && Nearest(es, s, a) && RoomsBefore(loads, a, start, entsize, n)
  }

  ghost predicate RoomsBefore(loads: seq<Load>, a: nat, start: nat, entsize: nat, n: nat) {
    exists end: nat :: Where(loads, a, end) && end < 0x1_0000_0000_0000_0000 && if end <= start then n == 0 else start + Area(n, entsize) <= end < start + Area(n, entsize) + entsize
  }

  predicate LeastOf(ns: seq<nat>, s: nat, a: Option<nat>) {
    && (a.Some? ==> a.value in ns && a.value > s)
    && forall c :: c in ns && c > s ==> a.Some? && a.value <= c
  }

  lemma {:induction false} LeastMeans(ns: seq<nat>, s: nat)
    ensures LeastOf(ns, s, LeastAbove(ns, s))
    decreases |ns|
  {
    if ns != [] {
      LeastMeans(ns[1..], s);
      assert forall c :: c in ns ==> c == ns[0] || c in ns[1..];
    }
  }

  lemma ListedMeans(es: seq<Tagged>, tag: nat, a: nat)
    ensures a in Listed(Last(es, tag)) <==> LastTag(es, tag, a)
  {
    LastMeans(es, tag);
  }

  lemma BesideMeans(es: seq<Tagged>, a: nat)
    ensures a in Neighbours(es) <==> Beside(es, a)
  {
    ListedMeans(es, DT_STRTAB, a);
    ListedMeans(es, DT_VERSYM, a);
    ListedMeans(es, DT_VERDEF, a);
    ListedMeans(es, DT_VERNEED, a);
    ListedMeans(es, DT_HASH, a);
    ListedMeans(es, DT_GNU_HASH, a);
  }

  lemma NearestMeans(es: seq<Tagged>, s: nat)
    ensures match LeastAbove(Neighbours(es), s)
      case Some(a) => Nearest(es, s, a)
      case None => forall a: nat :: !Nearest(es, s, a)
  {
    var ns := Neighbours(es);
    LeastMeans(ns, s);
    forall c: nat ensures c in ns <==> Beside(es, c) {
      BesideMeans(es, c);
    }
  }

  /** A quotient is how many whole entries fit. */
  lemma RoomMeans(start: nat, entsize: nat, end: nat, n: nat)
    requires entsize > 0 && n == Room(start, entsize, Some(end))
    ensures if end <= start then n == 0 else start + Area(n, entsize) <= end < start + Area(n, entsize) + entsize
  {
    AreaIs(n, entsize);
  }

  lemma RoomsMean(loads: seq<Load>, es: seq<Tagged>, start: nat, entsize: nat, end: Option<nat>)
    requires entsize > 0 && Last(es, DT_SYMTAB).Some? && SymbolsEnd(loads, es) == Ok(end)
    ensures Rooms(loads, es, start, entsize, Room(start, entsize, end))
  {
    var s := Last(es, DT_SYMTAB).value;
    LastMeans(es, DT_SYMTAB);
    NearestMeans(es, s);
    var near := LeastAbove(Neighbours(es), s);
    if near.Some? {
      OffsetMeans(loads, near.value, end.value);
      RoomMeans(start, entsize, end.value, Room(start, entsize, end));
      assert RoomsBefore(loads, near.value, start, entsize, Room(start, entsize, end));
    } else {
      forall z: nat, a: nat | LastTag(es, 6, z) ensures !Nearest(es, z, a) {
        assert z == s;
      }
    }
  }

  // ------------------------------------------------------------------------- the tables

  ghost predicate TagOr(es: seq<Tagged>, tag: nat, none: nat, v: nat) {
    if NoTag(es, tag) then v == none else LastTag(es, tag, v)
  }

  /** Where the symbol table is, how long its entries are and where their version words are. */
  ghost predicate TableIs(b: Bytes, loads: seq<Load>, es: seq<Tagged>, t: Table) {
    && Points(loads, es, 6, t.start) && t.entsize >= 24
    && TagOr(es, 11, 24, t.entsize)
    && (if NoTag(es, 0x6fff_fff0) then t.versym == None
        else t.versym.Some? && Points(loads, es, 0x6fff_fff0, t.versym.value) && t.versym.value <= |b|)
  }

  /** There are as many symbols as the hash table counts or as there is room for, whichever is
      more, and the file has them all. */
  ghost predicate SizeIs(b: Bytes, loads: seq<Load>, es: seq<Tagged>, t: Table, n: nat) {
    && t.start + Area(n, t.entsize) <= |b|
    && exists c: nat, r: nat :: Counts(b, loads, es, c) && Rooms(loads, es, t.start, t.entsize, r) && n == if c >= r then c else r
  }

  lemma TableMeans(b: Bytes, loads: seq<Load>, strs: Strings, names: seq<Version>, es: seq<Tagged>, end: Option<nat>)
    returns (t: Table, n: nat)
    requires strs.at + strs.size <= |b| && Last(es, DT_SYMTAB).Some? && SymbolsEnd(loads, es) == Ok(end)
    requires Symbols(b, loads, strs, names, es, end).Ok?
    ensures TableIs(b, loads, es, t) && SizeIs(b, loads, es, t, n)
    ensures Fits(b, strs, t, n) && Symbols(b, loads, strs, names, es, end) == SymbolsUpTo(b, strs, names, t, n)
  {
    var start, entsize := OffsetOf(loads, Last(es, DT_SYMTAB).value).value, LastOr(es, DT_SYMENT, 24);
    n := SymbolCount(b, loads, es, start, entsize, end).value;
    var v := Last(es, DT_VERSYM);
    t := Table(start, entsize, if v.None? then None else Some(OffsetOf(loads, v.value).value));
    PointsMeans(loads, es, DT_SYMTAB, Last(es, DT_SYMTAB).value, start);
    LastMeans(es, DT_SYMENT);
    LastMeans(es, DT_VERSYM);
    if v.Some? {
      PointsMeans(loads, es, DT_VERSYM, v.value, t.versym.value);
    }
    CountMeans(b, loads, es, Count(b, loads, Last(es, DT_HASH), Last(es, DT_GNU_HASH)).value);
    RoomsMean(loads, es, start, entsize, end);
  }

  // ----------------------------------------------------------------------- the versions

  /** The versions the file defines. */
  ghost predicate DefinedAre(b: Bytes, loads: seq<Load>, strs: Strings, es: seq<Tagged>, vs: seq<Version>)
    requires strs.at + strs.size <= |b|
  {
    if NoTag(es, 0x6fff_fffc) then vs == []
    else exists t: nat, num: nat :: Points(loads, es, 0x6fff_fffc, t) && t <= |b| && TagOr(es, 0x6fff_fffd, 0, num) && DefinedBy(b, strs, t, num, vs)
  }

  ghost predicate DefinedBy(b: Bytes, strs: Strings, t: nat, num: nat, vs: seq<Version>)
    requires strs.at + strs.size <= |b|
  {
    exists at, each :: Carried(b, t, num, 20, 16, Definitions(b, strs), at, each, vs)
  }

  /** The versions it asks for. */
  ghost predicate NeededAre(b: Bytes, loads: seq<Load>, strs: Strings, es: seq<Tagged>, vs: seq<Version>)
    requires strs.at + strs.size <= |b|
  {
    if NoTag(es, 0x6fff_fffe) then vs == []
    else exists t: nat, num: nat :: Points(loads, es, 0x6fff_fffe, t) && t <= |b| && TagOr(es, 0x6fff_ffff, 0, num) && NeededFrom(b, strs, t, num, vs)
  }

  ghost predicate NeededFrom(b: Bytes, strs: Strings, t: nat, num: nat, vs: seq<Version>)
    requires strs.at + strs.size <= |b|
  {
    exists at, each :: Carried(b, t, num, 16, 12, Needings(b, strs), at, each, vs)
  }

  ghost predicate VersionsAre(b: Bytes, loads: seq<Load>, strs: Strings, es: seq<Tagged>, names: seq<Version>)
    requires strs.at + strs.size <= |b|
  {
    exists mine, asked :: DefinedAre(b, loads, strs, es, mine) && NeededAre(b, loads, strs, es, asked) && names == mine + asked
  }

  lemma DefinedMean(b: Bytes, loads: seq<Load>, strs: Strings, es: seq<Tagged>, vs: seq<Version>)
    requires strs.at + strs.size <= |b| && VerdefTable(b, loads, strs, es) == Ok(vs)
    ensures DefinedAre(b, loads, strs, es, vs)
  {
    LastMeans(es, DT_VERDEF);
    LastMeans(es, DT_VERDEFNUM);
    if Last(es, DT_VERDEF).Some? {
      var t := OffsetOf(loads, Last(es, DT_VERDEF).value).value;
      PointsMeans(loads, es, DT_VERDEF, Last(es, DT_VERDEF).value, t);
      var at, each := DefinesMean(b, strs, t, LastOr(es, DT_VERDEFNUM, 0), vs);
      assert DefinedBy(b, strs, t, LastOr(es, DT_VERDEFNUM, 0), vs);
    }
  }

  lemma NeededMean(b: Bytes, loads: seq<Load>, strs: Strings, es: seq<Tagged>, vs: seq<Version>)
    requires strs.at + strs.size <= |b| && VerneedTable(b, loads, strs, es) == Ok(vs)
    ensures NeededAre(b, loads, strs, es, vs)
  {
    LastMeans(es, DT_VERNEED);
    LastMeans(es, DT_VERNEEDNUM);
    if Last(es, DT_VERNEED).Some? {
      var t := OffsetOf(loads, Last(es, DT_VERNEED).value).value;
      PointsMeans(loads, es, DT_VERNEED, Last(es, DT_VERNEED).value, t);
      var at, each := NeedsMean(b, strs, t, LastOr(es, DT_VERNEEDNUM, 0), vs);
      assert NeededFrom(b, strs, t, LastOr(es, DT_VERNEEDNUM, 0), vs);
    }
  }

  lemma VersionsMean(b: Bytes, loads: seq<Load>, strs: Strings, es: seq<Tagged>, names: seq<Version>)
    requires strs.at + strs.size <= |b| && Versions(b, loads, strs, es) == Ok(names)
    ensures VersionsAre(b, loads, strs, es, names)
  {
    var mine, asked := VerdefTable(b, loads, strs, es).value, VerneedTable(b, loads, strs, es).value;
    DefinedMean(b, loads, strs, es, mine);
    NeededMean(b, loads, strs, es, asked);
  }

  // -------------------------------------------------------------------------- the names

  /** The string the last entry of a tag names. */
  ghost predicate StringOf(b: Bytes, strs: Strings, es: seq<Tagged>, tag: nat, s: Option<Name>)
    requires strs.at + strs.size <= |b|
  {
    match s
    case None => NoTag(es, tag)
    case Some(name) => exists v: nat :: LastTag(es, tag, v) && StringIs(b, strs, v, name)
  }

  /** The strings all entries of a tag name, in order. */
  ghost predicate StringsOf(b: Bytes, strs: Strings, es: seq<Tagged>, tag: nat, names: seq<Name>)
    requires strs.at + strs.size <= |b|
  {
    exists vs, at :: AllOf(es, tag, vs, at) && EachString(b, strs, vs, names)
  }

  ghost predicate EachString(b: Bytes, strs: Strings, vs: seq<nat>, names: seq<Name>)
    requires strs.at + strs.size <= |b|
  {
    |names| == |vs| && forall k :: 0 <= k < |vs| ==> StringIs(b, strs, vs[k], names[k])
  }

  lemma OptionalMeans(b: Bytes, strs: Strings, es: seq<Tagged>, tag: nat, s: Option<Name>)
    requires strs.at + strs.size <= |b| && OptionalString(b, strs, Last(es, tag)) == Ok(s)
    ensures StringOf(b, strs, es, tag, s)
  {
    LastMeans(es, tag);
    if s.Some? {
      StringMeans(b, strs, Last(es, tag).value, s.value);
    }
  }

  lemma {:induction false} EachMeans(b: Bytes, strs: Strings, vs: seq<nat>, names: seq<Name>)
    requires strs.at + strs.size <= |b| && StringsAt(b, strs, vs) == Ok(names)
    ensures EachString(b, strs, vs, names)
    decreases |vs|
  {
    if vs != [] {
      StringMeans(b, strs, vs[0], names[0]);
      assert names[1..] == StringsAt(b, strs, vs[1..]).value;
      EachMeans(b, strs, vs[1..], names[1..]);
    }
  }

  lemma StringsMean(b: Bytes, strs: Strings, es: seq<Tagged>, tag: nat, names: seq<Name>)
    requires strs.at + strs.size <= |b| && StringsAt(b, strs, Every(es, tag)) == Ok(names)
    ensures StringsOf(b, strs, es, tag, names)
  {
    var at := EveryMeans(es, tag);
    EachMeans(b, strs, Every(es, tag), names);
  }

  // ------------------------------------------------------------------------- the answer

  /** The symbols of the answer are the table's. */
  ghost predicate SymbolsAre(b: Bytes, loads: seq<Load>, strs: Strings, es: seq<Tagged>, names: seq<Version>, elf: Elf)
    requires strs.at + strs.size <= |b|
  {
    if NoTag(es, 6) then elf.exports == [] && elf.undefined == []
    else exists t: Table, n: nat :: TableIs(b, loads, es, t) && SizeIs(b, loads, es, t, n) && SidesAre(b, strs, names, t, n, elf)
  }

  /** Every named entry's symbol is among the undefined ones when bytes 6 and 7 of the entry are
      zero, and among the exports otherwise. */
  ghost predicate SidesAre(b: Bytes, strs: Strings, names: seq<Version>, t: Table, n: nat, elf: Elf) {
    exists into: seq<nat>, out: seq<nat> ::
      SideSpells(b, strs, names, t, n, true, elf.undefined, into) && SideSpells(b, strs, names, t, n, false, elf.exports, out)
  }

  ghost predicate TextsAre(b: Bytes, strs: Strings, es: seq<Tagged>, elf: Elf)
    requires strs.at + strs.size <= |b|
  {
    && StringOf(b, strs, es, 14, elf.soname) && StringsOf(b, strs, es, 1, elf.needed)
    && StringOf(b, strs, es, 15, elf.rpath) && StringOf(b, strs, es, 29, elf.runpath)
  }

  /** The answer of a file with a dynamic section. */
  ghost predicate Dynamically(b: Bytes, h: Headers, es: seq<Tagged>, elf: Elf) {
    if NoTag(es, 1) && NoTag(es, 14) && NoTag(es, 15) && NoTag(es, 29) && NoTag(es, 6) then elf == NOTHING
    else exists strs: Strings, names :: DynamicBy(b, h, es, strs, names, elf)
  }

  /** By the string table its address and its size name, and the versions spelled in it. */
  ghost predicate DynamicBy(b: Bytes, h: Headers, es: seq<Tagged>, strs: Strings, names: seq<Version>, elf: Elf) {
    && Points(h.loads, es, 5, strs.at) && LastTag(es, 10, strs.size) && strs.at + strs.size <= |b|
    && TextsAre(b, strs, es, elf) && VersionsAre(b, h.loads, strs, es, names) && SymbolsAre(b, h.loads, strs, es, names, elf)
    && elf.versioned == !NoTag(es, 0x6fff_fffc) && elf.interp == h.interp
  }

  ghost predicate Spells(b: Bytes, elf: Elf) {
    && 58 <= |b| && b[..4] == [0x7f, 0x45, 0x4c, 0x46] && b[4] == 2 && b[5] == 1 && Le2(b, 18) == 62
    && if Le2(b, 56) == 0 then elf == NOTHING
       else HeadersSane(b, Le2(b, 56)) && exists h, at :: HeadersSpell(b, h, at, elf)
  }

  /** A count that is one, headers of a size that is one, and all of them in the file. */
  predicate HeadersSane(b: Bytes, n: nat)
    requires 58 <= |b|
  {
    n != 0xffff && Le2(b, 54) >= 56 && forall k: nat :: k < n ==> HeaderWhole(b, k)
  }

  predicate HeaderWhole(b: Bytes, k: nat)
    requires 58 <= |b|
  {
    HeaderAt(b, k) + Le2(b, 54) <= |b|
  }

  ghost predicate HeadersSpell(b: Bytes, h: Headers, at: seq<nat>, elf: Elf)
    requires 58 <= |b|
  {
    && HeadersUpTo(b, Le2(b, 56), h, at)
    && if h.dynamic == None then elf == NOTHING
       else exists es :: TagsAre(b, h.dynamic.value.0, h.dynamic.value.1, es) && Dynamically(b, h, es, elf)
  }

  lemma SymbolsMean(b: Bytes, loads: seq<Load>, strs: Strings, names: seq<Version>, es: seq<Tagged>, end: Option<nat>, elf: Elf)
    requires strs.at + strs.size <= |b| && SymbolsEnd(loads, es) == Ok(end)
    requires Symbols(b, loads, strs, names, es, end) == Ok(Tables(elf.exports, elf.undefined))
    ensures SymbolsAre(b, loads, strs, es, names, elf)
  {
    LastMeans(es, DT_SYMTAB);
    if Last(es, DT_SYMTAB).Some? {
      var t, n := TableMeans(b, loads, strs, names, es, end);
      var into := SideMeans(b, strs, names, t, n, true, elf.undefined);
      var out := SideMeans(b, strs, names, t, n, false, elf.exports);
      assert SidesAre(b, strs, names, t, n, elf);
    }
  }

  lemma TextsMean(b: Bytes, strs: Strings, es: seq<Tagged>, tables: Tables, interp: bool, elf: Elf)
    requires strs.at + strs.size <= |b| && Named(b, strs, es, tables, interp) == Ok(elf)
    ensures TextsAre(b, strs, es, elf) && elf.versioned == !NoTag(es, 0x6fff_fffc) && elf.interp == interp
    ensures tables == Tables(elf.exports, elf.undefined)
  {
    OptionalMeans(b, strs, es, DT_SONAME, elf.soname);
    OptionalMeans(b, strs, es, DT_RPATH, elf.rpath);
    OptionalMeans(b, strs, es, DT_RUNPATH, elf.runpath);
    StringsMean(b, strs, es, DT_NEEDED, elf.needed);
    LastMeans(es, DT_VERDEF);
  }

  lemma {:induction false} NoneOf(es: seq<Tagged>, tag: nat)
    ensures Every(es, tag) == [] <==> NoTag(es, tag)
    decreases |es|
  {
    if es != [] {
      NoneOf(es[..|es| - 1], tag);
      assert forall k :: 0 <= k < |es| - 1 ==> es[k] == es[..|es| - 1][k];
    }
  }

  lemma NothingMeans(es: seq<Tagged>)
    ensures NothingAsked(es) <==> NoTag(es, 1) && NoTag(es, 14) && NoTag(es, 15) && NoTag(es, 29) && NoTag(es, 6)
  {
    NoneOf(es, DT_NEEDED);
    LastMeans(es, DT_SONAME);
    LastMeans(es, DT_RPATH);
    LastMeans(es, DT_RUNPATH);
    LastMeans(es, DT_SYMTAB);
  }

  lemma TablesMean(b: Bytes, h: Headers, strs: Strings, es: seq<Tagged>, end: Option<nat>, elf: Elf) returns (names: seq<Version>)
    requires strs.at + strs.size <= |b| && SymbolsEnd(h.loads, es) == Ok(end)
    requires ReadTables(b, h.loads, strs, es, end, h.interp) == Ok(elf)
    ensures TextsAre(b, strs, es, elf) && VersionsAre(b, h.loads, strs, es, names) && SymbolsAre(b, h.loads, strs, es, names, elf)
    ensures elf.versioned == !NoTag(es, 0x6fff_fffc) && elf.interp == h.interp
  {
    names := Versions(b, h.loads, strs, es).value;
    var tables := Symbols(b, h.loads, strs, names, es, end).value;
    VersionsMean(b, h.loads, strs, es, names);
    TextsMean(b, strs, es, tables, h.interp, elf);
    SymbolsMean(b, h.loads, strs, names, es, end, elf);
  }

  lemma DynamicMeans(b: Bytes, h: Headers, es: seq<Tagged>, elf: Elf)
    requires ReadDynamic(b, h, es) == Ok(elf)
    ensures Dynamically(b, h, es, elf)
  {
    NothingMeans(es);
    if !NothingAsked(es) {
      var at, size := OffsetOf(h.loads, Last(es, DT_STRTAB).value).value, Last(es, DT_STRSZ).value;
      var strs := Strings(at, size);
      PointsMeans(h.loads, es, DT_STRTAB, Last(es, DT_STRTAB).value, at);
      LastMeans(es, DT_STRSZ);
      var names := TablesMean(b, h, strs, es, SymbolsEnd(h.loads, es).value, elf);
      assert DynamicBy(b, h, es, strs, names, elf);
    }
  }

  lemma SectionMeans(b: Bytes, off: nat, size: nat)
    requires off + size <= |b|
    ensures TagsAre(b, off, size, Entries(b, off, size / 16))
  {
    var n := size / 16;
    EntriesMean(b, off, n, 16 * n);
  }

  lemma BodyMeans(b: Bytes, h: Headers, at: seq<nat>, elf: Elf)
    requires 58 <= |b| && HeadersUpTo(b, Le2(b, 56), h, at) && ReadBody(b, h) == Ok(elf)
    ensures HeadersSpell(b, h, at, elf)
  {
    if h.dynamic.Some? {
      var (off, size) := h.dynamic.value;
      var es := Entries(b, off, size / 16);
      SectionMeans(b, off, size);
      DynamicMeans(b, h, es, elf);
    }
  }

  /** The file's start, by which a file is refused, and the numbers in it. */
  lemma StartMeans(b: Bytes)
    requires Parse(b).Ok?
    ensures 58 <= |b| && b[..4] == [0x7f, 0x45, 0x4c, 0x46] && b[4] == 2 && b[5] == 1 && Le2(b, 18) == 62
    ensures U64(b, 32) == Some(Le8(b, 32)) && U16(b, 54) == Some(Le2(b, 54)) && U16(b, 56) == Some(Le2(b, 56))
  {
    WordsAre(b, 18);
    WordsAre(b, 32);
    WordsAre(b, 54);
    WordsAre(b, 56);
  }

  lemma HeadersStart(b: Bytes)
    requires 58 <= |b|
    ensures HeadersUpTo(b, 0, Headers([], None, false), []) && HeaderAt(b, 0) == Le8(b, 32)
  {
  }

  lemma {:induction false} HeadersFit(b: Bytes, n: nat, m: nat, start: nat, size: nat, left: nat, h: Headers)
    requires 58 <= |b| && size == Le2(b, 54) >= 56 && m == n + left && start == HeaderAt(b, n)
    requires ReadHeaders(b, start, size, left, h).Ok?
    ensures forall k: nat :: n <= k < m ==> HeaderWhole(b, k)
    decreases left
  {
    if left > 0 {
      assert HeaderAt(b, n + 1) == start + size;
      HeadersFit(b, n + 1, m, start + size, size, left - 1, AddSegment(h, SegmentAt(b, start)));
    }
  }

  lemma HeadersRead(b: Bytes, start: nat, size: nat, n: nat) returns (h: Headers, at: seq<nat>)
    requires Parse(b).Ok? && 58 <= |b| && start == Le8(b, 32) && size == Le2(b, 54) && n == Le2(b, 56) && n > 0
    requires U64(b, 32) == Some(start) && U16(b, 54) == Some(size) && U16(b, 56) == Some(n)
    ensures HeadersSane(b, n) && HeadersUpTo(b, n, h, at) && ReadBody(b, h) == Parse(b)
  {
    HeadersStart(b);
    h := ReadHeaders(b, start, size, n, Headers([], None, false)).value;
    HeadersFit(b, 0, n, start, size, n, Headers([], None, false));
    at := HeadersMean(b, 0, n, start, size, n, Headers([], None, false), [], h);
  }

  /** What the parser answers with, the file spells. */
  lemma ParsedMeans(b: Bytes)
    requires Parse(b).Ok?
    ensures Spells(b, Parse(b).value)
  {
    StartMeans(b);
    if Le2(b, 56) > 0 {
      var h, at := HeadersRead(b, Le8(b, 32), Le2(b, 54), Le2(b, 56));
      BodyMeans(b, h, at, Parse(b).value);
    }
  }
}
