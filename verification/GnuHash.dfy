/** Sizing the symbol table from a GNU hash table is exact, and no named symbol it covers is
    lost or read twice. `count` and `symbols` in elf.rs. */
module GnuHash {
  import opened Paths
  import opened Disk
  import opened Elf

  /** Chain word `i`, for the symbol that many places after the first hashed one. */
  function ChainWord(b: Bytes, g: GnuHeader, i: nat): Option<nat> {
    U32(b, g.buckets + 4 * g.nbuckets + 4 * i)
  }

  /** A run of chain words starts behind one that ends the run before it. */
  ghost predicate RunStart(b: Bytes, g: GnuHeader, i: nat) {
    i == 0 || (ChainWord(b, g, i - 1).Some? && ChainWord(b, g, i - 1).value % 2 == 1)
  }

  function Bucket(b: Bytes, g: GnuHeader, k: nat): Option<nat> {
    U32(b, g.buckets + 4 * k)
  }

  /** A linker's table over symbols `symoffset` to `n`: its runs tile them, every run has its
      bucket, and a bucket that has none is zero. */
  ghost predicate Tiled(b: Bytes, g: GnuHeader, n: nat) {
    && g.symoffset <= n
    && g.buckets + 4 * g.nbuckets + 4 * (n - g.symoffset) <= |b|
    && (n > g.symoffset ==> ChainWord(b, g, n - g.symoffset - 1).value % 2 == 1)
    && (forall k :: 0 <= k < g.nbuckets ==> Bucket(b, g, k).value == 0 || HasRun(b, g, n, Bucket(b, g, k).value))
    && (forall i :: 0 <= i < n - g.symoffset && RunStart(b, g, i) ==> exists k :: 0 <= k < g.nbuckets && Bucket(b, g, k) == Some(g.symoffset + i))
  }

  ghost predicate HasRun(b: Bytes, g: GnuHeader, n: nat, v: nat) {
    g.symoffset <= v < n && RunStart(b, g, v - g.symoffset)
  }

  /** The largest bucket is one of them, and none is larger. */
  lemma {:induction false} LastBucketIs(b: Bytes, at: nat, n: nat)
    requires at + 4 * n <= |b|
    ensures forall k :: 0 <= k < n ==> U32(b, at + 4 * k).value <= LastBucket(b, at, n)
    ensures n > 0 ==> exists k :: 0 <= k < n && U32(b, at + 4 * k).value == LastBucket(b, at, n)
    decreases n
  {
    if n > 0 {
      LastBucketIs(b, at, n - 1);
      assert U32(b, at + 4 * (n - 1)).value <= LastBucket(b, at, n);
    }
  }

  /** The walk stops at the first odd word. */
  lemma {:induction false} WalkStops(b: Bytes, g: GnuHeader, i: nat, end: nat)
    requires i <= end && ChainWord(b, g, end).Some? && ChainWord(b, g, end).value % 2 == 1
    requires forall k :: i <= k < end ==> ChainWord(b, g, k).Some? && ChainWord(b, g, k).value % 2 == 0
    ensures ChainEnd(b, g.buckets + 4 * g.nbuckets, i) == Some(end)
    decreases end - i
  {
    if i < end {
      assert ChainWord(b, g, i).Some?;
      WalkStops(b, g, i + 1, end);
    }
  }

  /** The start of the last run before `m`. */
  lemma {:induction false} LastRun(b: Bytes, g: GnuHeader, m: nat) returns (i: nat)
    requires m > 0 && g.buckets + 4 * g.nbuckets + 4 * m <= |b|
    ensures i < m && RunStart(b, g, i)
    ensures forall k :: i < k < m ==> !RunStart(b, g, k)
  {
    if RunStart(b, g, m - 1) {
      i := m - 1;
    } else {
      i := LastRun(b, g, m - 1);
    }
  }

  /** No bucket points past the last run, and one points at it. */
  lemma BucketsReach(b: Bytes, g: GnuHeader, n: nat, i: nat)
    requires Tiled(b, g, n) && i < n - g.symoffset && RunStart(b, g, i)
    requires forall k :: i < k < n - g.symoffset ==> !RunStart(b, g, k)
    ensures forall k :: 0 <= k < g.nbuckets ==> Bucket(b, g, k).value <= g.symoffset + i
    ensures exists k :: 0 <= k < g.nbuckets && Bucket(b, g, k).value == g.symoffset + i
  {
    forall k | 0 <= k < g.nbuckets ensures Bucket(b, g, k).value <= g.symoffset + i {
      var v := Bucket(b, g, k).value;
      assert v == 0 || HasRun(b, g, n, v);
    }
  }

  lemma LargestBucket(b: Bytes, g: GnuHeader, n: nat, i: nat)
    requires g.buckets + 4 * g.nbuckets <= |b|
    requires forall k :: 0 <= k < g.nbuckets ==> Bucket(b, g, k).value <= n
    requires i < g.nbuckets && Bucket(b, g, i).value == n
    ensures LastBucket(b, g.buckets, g.nbuckets) == n
  {
    LastBucketIs(b, g.buckets, g.nbuckets);
    assert U32(b, g.buckets + 4 * i).value <= LastBucket(b, g.buckets, g.nbuckets);
    var l :| 0 <= l < g.nbuckets && U32(b, g.buckets + 4 * l).value == LastBucket(b, g.buckets, g.nbuckets);
    assert Bucket(b, g, l).value <= n;
  }

  /** The largest bucket is the start of the last run. */
  lemma LastRunEnds(b: Bytes, g: GnuHeader, n: nat) returns (i: nat)
    requires Tiled(b, g, n) && n > g.symoffset
    ensures g.nbuckets > 0 && i < n - g.symoffset
    ensures LastBucket(b, g.buckets, g.nbuckets) == g.symoffset + i
    ensures forall k :: i < k < n - g.symoffset ==> !RunStart(b, g, k)
  {
    i := LastRun(b, g, n - g.symoffset);
    var top := g.symoffset + i;
    BucketsReach(b, g, n, i);
    var l :| 0 <= l < g.nbuckets && Bucket(b, g, l).value == top;
    LargestBucket(b, g, top, l);
  }

  lemma LastRunWalked(b: Bytes, g: GnuHeader, m: nat, i: nat)
    requires i < m && g.buckets + 4 * g.nbuckets + 4 * m <= |b| && ChainWord(b, g, m - 1).value % 2 == 1
    requires forall k :: i < k < m ==> !RunStart(b, g, k)
    ensures ChainEnd(b, g.buckets + 4 * g.nbuckets, i) == Some((m - 1) as nat)
  {
    forall k | i <= k < m - 1 ensures ChainWord(b, g, k).Some? && ChainWord(b, g, k).value % 2 == 0 {
      assert !RunStart(b, g, k + 1);
    }
    WalkStops(b, g, i, m - 1);
  }

  /** The count is exact for every table a linker writes, but for one that covers nothing and
      starts at symbol zero: that one's chain is walked all the same. */
  lemma CountExact(b: Bytes, t: nat, n: nat)
    requires t <= |b| && GnuHeaderAt(b, t).Some? && Tiled(b, GnuHeaderAt(b, t).value, n)
    ensures GnuCount(b, t) == Ok(n) <==> n > 0
  {
    var g := GnuHeaderAt(b, t).value;
    if n > g.symoffset {
      var i := LastRunEnds(b, g, n);
      LastRunWalked(b, g, n - g.symoffset, i);
    } else if g.nbuckets > 0 {
      assert forall k :: 0 <= k < g.nbuckets ==> Bucket(b, g, k).value == 0;
      LargestBucket(b, g, 0, 0);
    }
  }

  /** Such a table: no buckets, no symbols, and a chain that is not there. */
  lemma EmptyFromZero()
    ensures var b := seq(16, _ => 0);
      && GnuHeaderAt(b, 0) == Some(GnuHeader(0, 0, 16)) && Tiled(b, GnuHeader(0, 0, 16), 0)
      && GnuCount(b, 0) == Err(ChainOffEnd)
  {
    var b: Bytes := seq(16, _ => 0);
    ZeroWord(b, 0, 4);
    ZeroWord(b, 4, 4);
    ZeroWord(b, 8, 4);
  }

  lemma {:induction false} ZeroWord(b: Bytes, p: nat, n: nat)
    requires p + n <= |b| && forall i :: 0 <= i < |b| ==> b[i] == 0
    ensures Word(b, p, n) == 0
    decreases n
  {
    if n > 0 {
      ZeroWord(b, p + 1, n - 1);
    }
  }

  // ---------------------------------------------------------------------------- symbols

  ghost predicate NamedAt(b: Bytes, t: Table, i: nat)
    requires EntryAt(t, i) + 24 <= |b|
  {
    U32(b, EntryAt(t, i)).value != 0
  }

  /** Whether an entry is on a side. */
  ghost predicate OnSide(b: Bytes, t: Table, i: nat, undef: bool)
    requires EntryAt(t, i) + 24 <= |b|
  {
    NamedAt(b, t, i) && Undefined(b, t, i) == undef
  }

  /** Which entries of a table are named and on one side. */
  ghost function Side(b: Bytes, t: Table, n: nat, undef: bool): seq<nat>
    requires t.entsize >= 24 && t.start + Area(n, t.entsize) <= |b|
    decreases n
  {
    if n == 0 then []
    else Side(b, t, n - 1, undef) + if OnSide(b, t, n - 1, undef) then [n - 1] else []
  }

  lemma {:induction false} EntriesFit(t: Table, n: nat, room: nat)
    requires t.entsize >= 24 && t.start + Area(n, t.entsize) <= room
    ensures forall i :: 0 <= i < n ==> t.start + Area(i, t.entsize) + 24 <= room
    decreases n
  {
    if n > 0 {
      EntriesFit(t, n - 1, room - t.entsize);
    }
  }

  lemma SideMore(b: Bytes, t: Table, n: nat, left: nat, undef: bool)
    requires t.entsize >= 24 && n == left + 1 && EntryAt(t, n) <= |b|
    ensures EntryAt(t, left) + 24 <= |b|
    ensures Side(b, t, n, undef) == Side(b, t, left, undef) + if OnSide(b, t, left, undef) then [left] else []
  {
    assert EntryAt(t, n) == EntryAt(t, left) + t.entsize;
  }

  lemma {:induction false} SideHas(b: Bytes, t: Table, n: nat, undef: bool, i: nat)
    requires t.entsize >= 24 && EntryAt(t, n) <= |b| && (i < n ==> EntryAt(t, i) + 24 <= |b|)
    ensures i in Side(b, t, n, undef) <==> i < n && OnSide(b, t, i, undef)
    decreases n
  {
    if n > 0 {
      var left: nat := n - 1;
      SideMore(b, t, n, left, undef);
      SideHas(b, t, left, undef, i);
    }
  }

  ghost predicate Rises(side: seq<nat>) {
    forall k, l :: 0 <= k < l < |side| ==> side[k] < side[l]
  }

  lemma {:induction false} SideRises(b: Bytes, t: Table, n: nat, undef: bool)
    requires t.entsize >= 24 && EntryAt(t, n) <= |b|
    ensures Rises(Side(b, t, n, undef)) && forall k :: 0 <= k < |Side(b, t, n, undef)| ==> Side(b, t, n, undef)[k] < n
    decreases n
  {
    if n > 0 {
      var left: nat := n - 1;
      SideMore(b, t, n, left, undef);
      SideRises(b, t, left, undef);
    }
  }

  /** In order, and every named entry on its side exactly once. */
  lemma SideHolds(b: Bytes, t: Table, n: nat, undef: bool)
    requires t.entsize >= 24 && EntryAt(t, n) <= |b|
    ensures forall i :: 0 <= i < n ==> EntryAt(t, i) + 24 <= |b|
    ensures Rises(Side(b, t, n, undef))
    ensures forall i: nat :: i in Side(b, t, n, undef) <==> i < n && OnSide(b, t, i, undef)
  {
    EntriesFit(t, n, |b|);
    SideRises(b, t, n, undef);
    forall i: nat ensures i in Side(b, t, n, undef) <==> i < n && OnSide(b, t, i, undef) {
      SideHas(b, t, n, undef, i);
    }
  }

  /** One side of the answer is that side of the table, symbol for symbol. */
  ghost predicate Reads(b: Bytes, strs: Strings, names: seq<Version>, t: Table, n: nat, side: seq<nat>, syms: seq<Sym>)
    requires strs.at + strs.size <= |b| && t.entsize >= 24 && t.start + Area(n, t.entsize) <= |b|
  {
    && |syms| == |side|
    && forall k :: 0 <= k < |side| ==>
         && side[k] < n && EntryAt(t, side[k]) + 24 <= |b|
         && SymbolAt(b, strs, names, t, side[k]) == Ok(Some(syms[k]))
  }

  function SideOf(r: Tables, undef: bool): seq<Sym> {
    if undef then r.undefined else r.exports
  }

  /** What one more entry adds to a side. */
  lemma EntryRead(b: Bytes, strs: Strings, names: seq<Version>, t: Table, n: nat, left: nat, undef: bool)
    requires n == left + 1 && Fits(b, strs, t, n) && Fits(b, strs, t, left) && EntryAt(t, left) + 24 <= |b|
    requires SymbolsUpTo(b, strs, names, t, n).Ok?
    ensures SymbolsUpTo(b, strs, names, t, left).Ok? && SymbolAt(b, strs, names, t, left).Ok?
    ensures var s := SymbolAt(b, strs, names, t, left).value;
      && (s.Some? <==> NamedAt(b, t, left))
      && SideOf(SymbolsUpTo(b, strs, names, t, n).value, undef)
         == SideOf(SymbolsUpTo(b, strs, names, t, left).value, undef) + (if OnSide(b, t, left, undef) then [s.value] else [])
  {
    var so, entry, undefined := SymbolsUpTo(b, strs, names, t, left), SymbolAt(b, strs, names, t, left), Undefined(b, t, left);
    assert SymbolsUpTo(b, strs, names, t, n) == Sided(so, entry, undefined);
  }

  lemma ReadsOn(b: Bytes, strs: Strings, names: seq<Version>, t: Table, n: nat, left: nat, side: seq<nat>, syms: seq<Sym>, more: seq<nat>, mine: seq<Sym>)
    requires n == left + 1 && Fits(b, strs, t, n) && Fits(b, strs, t, left) && EntryAt(t, left) + 24 <= |b|
    requires Reads(b, strs, names, t, left, side, syms)
    requires (more == [] && mine == []) || (more == [left] && |mine| == 1 && SymbolAt(b, strs, names, t, left) == Ok(Some(mine[0])))
    ensures Reads(b, strs, names, t, n, side + more, syms + mine)
  {
  }

  lemma {:induction false} SideRead(b: Bytes, strs: Strings, names: seq<Version>, t: Table, n: nat, undef: bool)
    requires Fits(b, strs, t, n) && SymbolsUpTo(b, strs, names, t, n).Ok?
    ensures Reads(b, strs, names, t, n, Side(b, t, n, undef), SideOf(SymbolsUpTo(b, strs, names, t, n).value, undef))
    decreases n
  {
    if n > 0 {
      var left: nat := n - 1;
      EntryFits(b, strs, t, left, n);
      EntryRead(b, strs, names, t, n, left, undef);
      SideRead(b, strs, names, t, left, undef);
      SideMore(b, t, n, left, undef);
      var so, s := SideOf(SymbolsUpTo(b, strs, names, t, left).value, undef), SymbolAt(b, strs, names, t, left).value;
      var mine := OnSide(b, t, left, undef);
      ReadsOn(b, strs, names, t, n, left, Side(b, t, left, undef), so, if mine then [left] else [], if mine then [s.value] else []);
    }
  }

  /** Reading the symbols takes in at least what the hash table counts. */
  lemma SymbolsTable(b: Bytes, loads: seq<Load>, strs: Strings, names: seq<Version>, es: seq<Tagged>, end: Option<nat>)
    returns (t: Table, n: nat)
    requires strs.at + strs.size <= |b| && Last(es, DT_SYMTAB).Some? && Symbols(b, loads, strs, names, es, end).Ok?
    ensures Fits(b, strs, t, n) && Symbols(b, loads, strs, names, es, end) == SymbolsUpTo(b, strs, names, t, n)
    ensures var c := Count(b, loads, Last(es, DT_HASH), Last(es, DT_GNU_HASH)); c.Ok? && c.value <= n
  {
    var start, entsize := OffsetOf(loads, Last(es, DT_SYMTAB).value).value, LastOr(es, DT_SYMENT, 24);
    n := SymbolCount(b, loads, es, start, entsize, end).value;
    var v := Last(es, DT_VERSYM);
    t := Table(start, entsize, if v.None? then None else Some(OffsetOf(loads, v.value).value));
  }

  /** Every named symbol a linker's GNU hash table covers is read, once, as an export or as an
      undefined symbol and not as both. */
  lemma EverySymbolOnce(b: Bytes, loads: seq<Load>, strs: Strings, names: seq<Version>, es: seq<Tagged>, end: Option<nat>, m: nat)
    returns (t: Table, n: nat)
    requires strs.at + strs.size <= |b| && Last(es, DT_SYMTAB).Some? && Last(es, DT_GNU_HASH).Some?
    requires Symbols(b, loads, strs, names, es, end).Ok?
    requires var h := OffsetOf(loads, Last(es, DT_GNU_HASH).value);
      h.Ok? && h.value <= |b| && GnuHeaderAt(b, h.value).Some? && Tiled(b, GnuHeaderAt(b, h.value).value, m)
    ensures m <= n && Fits(b, strs, t, n)
    ensures forall i :: 0 <= i < n ==> EntryAt(t, i) + 24 <= |b|
    ensures forall i :: 0 <= i < n && NamedAt(b, t, i) ==> ((i in Side(b, t, n, false)) != (i in Side(b, t, n, true)))
    ensures var r := Symbols(b, loads, strs, names, es, end).value;
      && Reads(b, strs, names, t, n, Side(b, t, n, false), r.exports)
      && Reads(b, strs, names, t, n, Side(b, t, n, true), r.undefined)
  {
    t, n := SymbolsTable(b, loads, strs, names, es, end);
    CountExact(b, OffsetOf(loads, Last(es, DT_GNU_HASH).value).value, m);
    SideHolds(b, t, n, false);
    SideHolds(b, t, n, true);
    SideRead(b, strs, names, t, n, false);
    SideRead(b, strs, names, t, n, true);
  }
}
