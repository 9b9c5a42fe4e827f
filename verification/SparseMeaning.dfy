/** Which bytes of a file its sparse reading takes, which it leaves zero, and when it gives up:
    `sparse` in elf.rs. */
module SparseMeaning {
  import opened Paths
  import opened Disk
  import opened Elf
  import opened ElfMeaning
  import opened Locality
  import opened SparseRead

  // -------------------------------------------------------------------------- the reach

  /** An address of a table that does not say how long it is: the symbols, either hash table, and
      the three version tables. */
  predicate TableAt(es: seq<Tagged>, a: nat) {
    exists e <- es :: e.val == a && e.tag in {6, 4, 0x6fff_fef5, 0x6fff_fff0, 0x6fff_fffc, 0x6fff_fffe}
  }

  /** The highest of them that is past the string table. */
  ghost predicate Highest(es: seq<Tagged>, strtab: nat, a: nat) {
    TableAt(es, a) && a > strtab && forall c: nat :: TableAt(es, c) ==> c <= a
  }

  /** The end of the first segment an address is in. */
  ghost predicate EndOf(loads: seq<Load>, addr: nat, end: nat) {
    exists i :: (
      && 0 <= i < |loads| && ElfMeaning.Holds(loads[i], addr) && end == loads[i].offset + loads[i].filesz < 0x1_0000_0000_0000_0000
      && forall l :: 0 <= l < i ==> !ElfMeaning.Holds(loads[l], addr))
  }

  /** The end of the strings, or of the segment the highest table is in if that is later. */
  ghost predicate ReachIs(loads: seq<Load>, es: seq<Tagged>, hi: nat) {
    exists strtab: nat, size: nat, at: nat :: (
      && LastTag(es, 5, strtab) && LastTag(es, 10, size) && Where(loads, strtab, at)
      && ReachFrom(loads, es, strtab, at + size, hi))
  }

  ghost predicate ReachFrom(loads: seq<Load>, es: seq<Tagged>, strtab: nat, strings: nat, hi: nat) {
    || ((forall a: nat :: TableAt(es, a) ==> a <= strtab) && hi == strings)
    || exists a: nat, end: nat :: Highest(es, strtab, a) && EndOf(loads, a, end) && hi == if strings >= end then strings else end
  }

  lemma {:induction false} TablesAre(es: seq<Tagged>, a: nat)
    ensures a in TableAddresses(es) <==> TableAt(es, a)
    decreases |es|
  {
    if es != [] {
      TablesAre(es[..|es| - 1], a);
      assert forall e :: e in es <==> e in es[..|es| - 1] || e == es[|es| - 1];
    }
  }

  lemma {:induction false} FurthestMeans(tables: seq<nat>, strtab: nat)
    ensures match Furthest(tables, strtab)
      case Some(a) => a in tables && a > strtab && forall c :: c in tables ==> c <= a
      case None => forall c :: c in tables ==> c <= strtab
    decreases |tables|
  {
    if tables != [] {
      FurthestMeans(tables[..|tables| - 1], strtab);
      assert forall c :: c in tables <==> c in tables[..|tables| - 1] || c == tables[|tables| - 1];
    }
  }

  lemma {:induction false} EndMeans(loads: seq<Load>, addr: nat)
    ensures SegmentEnd(loads, addr).Some? ==> EndOf(loads, addr, SegmentEnd(loads, addr).value)
    decreases |loads|
  {
    if loads != [] && !ElfMeaning.Holds(loads[0], addr) {
      var rest := loads[1..];
      EndMeans(rest, addr);
      if SegmentEnd(rest, addr).Some? {
        var end := SegmentEnd(rest, addr).value;
        var i :| 0 <= i < |rest| && ElfMeaning.Holds(rest[i], addr) && end == rest[i].offset + rest[i].filesz
          && forall l :: 0 <= l < i ==> !ElfMeaning.Holds(rest[l], addr);
        assert loads[i + 1] == rest[i];
        forall l | 0 <= l < i + 1 ensures !ElfMeaning.Holds(loads[l], addr) {
          if l > 0 { assert loads[l] == rest[l - 1]; }
        }
      }
    }
  }

  lemma ReachMeans(loads: seq<Load>, es: seq<Tagged>, hi: nat)
    requires Last(es, DT_STRTAB).Some? && Last(es, DT_STRSZ).Some? && Reach(loads, es) == Some(hi)
    ensures ReachIs(loads, es, hi)
  {
    var strtab, size := Last(es, DT_STRTAB).value, Last(es, DT_STRSZ).value;
    var at, tables := OffsetOf(loads, strtab).value, TableAddresses(es);
    LastMeans(es, DT_STRTAB);
    LastMeans(es, DT_STRSZ);
    OffsetMeans(loads, strtab, at);
    FurthestMeans(tables, strtab);
    forall a: nat ensures a in tables <==> TableAt(es, a) {
      TablesAre(es, a);
    }
    var last := Furthest(tables, strtab);
    if last.Some? {
      EndMeans(loads, last.value);
      assert Highest(es, strtab, last.value);
    }
    assert ReachFrom(loads, es, strtab, at + size, hi);
  }

  // -------------------------------------------------------------------------- the bytes

  /** The buffer has the bytes that are read, and zero for the others. */
  ghost predicate Only(w: Bytes, b: Bytes, read: nat -> bool) {
    |b| == |w| && forall i: nat :: i < |w| ==> b[i] == if read(i) then w[i] else 0
  }

  ghost function Nothing(): nat -> bool {
    (i: nat) => false
  }

  ghost function And(read: nat -> bool, off: nat, n: nat): nat -> bool {
    (i: nat) => read(i) || off <= i < off + n
  }

  lemma FillOnly(w: Bytes, b: Bytes, read: nat -> bool, off: nat, n: nat)
    requires Only(w, b, read)
    ensures Fill(b, w, off, n).Some? <==> off + n <= |w|
    ensures Fill(b, w, off, n).Some? ==> Only(w, Fill(b, w, off, n).value, And(read, off, n))
  {
  }

  lemma ReadSame(w: Bytes, b: Bytes, read: nat -> bool, off: nat, n: nat)
    requires Only(w, b, And(read, off, n))
    ensures Same(b, w, off, off + n)
  {
  }

  /** The program headers, as many as the file counts and each as long as it says. */
  function HeadersEnd(w: Bytes): nat
    requires 64 <= |w|
  {
    Le8(w, 32) + Area(Le2(w, 56), Le2(w, 54))
  }

  /** What the file header has to say: a sane header size, a count that is one, and room for them. */
  predicate HeadersReadable(w: Bytes) {
    64 <= |w| && w[..4] == [0x7f, 0x45, 0x4c, 0x46] && Le2(w, 54) >= 56 && Le2(w, 56) != 0xffff && HeadersEnd(w) <= |w|
  }

  ghost function Top(w: Bytes): nat -> bool
    requires 64 <= |w|
  {
    And(And(Nothing(), 0, 64), Le8(w, 32), Area(Le2(w, 56), Le2(w, 54)))
  }

  lemma WordsOfHeader(w: Bytes)
    requires 64 <= |w|
    ensures U64(w, 32) == Some(Le8(w, 32)) && U16(w, 54) == Some(Le2(w, 54)) && U16(w, 56) == Some(Le2(w, 56))
  {
    WordsAre(w, 32);
    WordsAre(w, 54);
    WordsAre(w, 56);
  }

  /** The first fill. */
  lemma FirstFill(w: Bytes) returns (b: Bytes)
    requires 64 <= |w|
    ensures Fill(Zeros(|w|), w, 0, 64) == Some(b) && Only(w, b, And(Nothing(), 0, 64))
    ensures b[..4] == w[..4] && U64(b, 32) == Some(Le8(w, 32)) && U16(b, 54) == Some(Le2(w, 54)) && U16(b, 56) == Some(Le2(w, 56))
  {
    FillOnly(w, Zeros(|w|), Nothing(), 0, 64);
    b := Fill(Zeros(|w|), w, 0, 64).value;
    ReadSame(w, b, Nothing(), 0, 64);
    PrefixSame(b, w);
    WordsOfHeader(w);
    assert b[..4] == w[..4];
  }

  /** And the second. */
  lemma SecondFill(w: Bytes, b: Bytes) returns (c: Bytes)
    requires HeadersReadable(w) && Only(w, b, And(Nothing(), 0, 64))
    ensures Fill(b, w, Le8(w, 32), Area(Le2(w, 56), Le2(w, 54))) == Some(c) && Only(w, c, Top(w))
    ensures ReadHeaders(c, Le8(w, 32), Le2(w, 54), Le2(w, 56), Headers([], None, false)) == HeadersOf(w)
  {
    var phoff, n, size := Le8(w, 32), Le2(w, 56), Le2(w, 54);
    FillOnly(w, b, And(Nothing(), 0, 64), phoff, Area(n, size));
    c := Fill(b, w, phoff, Area(n, size)).value;
    ReadSame(w, c, And(Nothing(), 0, 64), phoff, Area(n, size));
    assert Same(c, w, 0, 64);
    WordsOfHeader(w);
    PrefixSame(c, w);
    HeadersSame(c, w, phoff, size, n, Headers([], None, false));
  }

  /** Sparse reading is those two fills and the tables. */
  lemma SparseSteps(w: Bytes) returns (c: Bytes)
    ensures HeadersReadable(w) && HeadersOf(w).Ok? ==> Only(w, c, Top(w)) && Sparse(w) == SparseTables(c, w, HeadersOf(w).value)
    ensures !(HeadersReadable(w) && HeadersOf(w).Ok?) ==> Sparse(w) == None
  {
    c := w;
    if 64 <= |w| {
      var b := FirstFill(w);
      if HeadersReadable(w) {
        c := SecondFill(w, b);
      } else {
        FillOnly(w, b, And(Nothing(), 0, 64), Le8(w, 32), Area(Le2(w, 56), Le2(w, 54)));
      }
    }
  }

  /** The dynamic section of a file and what it leads to can be read. */
  predicate TablesReadable(w: Bytes, h: Headers) {
    h.dynamic.Some? ==>
      var (off, size) := h.dynamic.value;
      off + size <= |w| && RestReadable(w, h.loads, Entries(w, off, size / 16))
  }

  predicate RestReadable(w: Bytes, loads: seq<Load>, es: seq<Tagged>) {
    Last(es, DT_STRTAB).Some? && Last(es, DT_STRSZ).Some? ==> Reach(loads, es).Some? && Reach(loads, es).value <= |w|
  }

  /** How far the tables are read, zero where there is nothing to tell. */
  function ReachOr(loads: seq<Load>, es: seq<Tagged>): nat {
    if Last(es, DT_STRTAB).Some? && Last(es, DT_STRSZ).Some? && Reach(loads, es).Some? then Reach(loads, es).value else 0
  }

  /** A byte is read if it is in the file header, in the program headers, in the dynamic section, or
      before the end of what that leads to. */
  predicate IsRead(w: Bytes, h: Headers, i: nat)
    requires 64 <= |w| && TablesReadable(w, h)
  {
    || i < 64
    || Le8(w, 32) <= i < HeadersEnd(w)
    || (h.dynamic.Some? &&
        var (off, size) := h.dynamic.value;
        off <= i < off + size || i < ReachOr(h.loads, Entries(w, off, size / 16)))
  }

  ghost predicate Reading(w: Bytes, h: Headers, b: Bytes)
    requires 64 <= |w| && TablesReadable(w, h)
  {
    |b| == |w| && forall i: nat :: i < |w| ==> b[i] == if IsRead(w, h, i) then w[i] else 0
  }

  lemma RestOnly(w: Bytes, c: Bytes, read: nat -> bool, h: Headers, es: seq<Tagged>)
    requires Only(w, c, read)
    ensures SparseRest(c, w, h, es).Some? <==> RestReadable(w, h.loads, es)
    ensures SparseRest(c, w, h, es).Some? ==> Only(w, SparseRest(c, w, h, es).value, And(read, 0, ReachOr(h.loads, es)))
  {
    if Last(es, DT_STRTAB).Some? && Last(es, DT_STRSZ).Some? && Reach(h.loads, es).Some? {
      FillOnly(w, c, read, 0, Reach(h.loads, es).value);
    }
  }

  lemma TablesOnly(w: Bytes, c: Bytes, h: Headers)
    requires 64 <= |w| && Only(w, c, Top(w))
    ensures SparseTables(c, w, h).Some? <==> TablesReadable(w, h)
    ensures SparseTables(c, w, h).Some? ==> Reading(w, h, SparseTables(c, w, h).value)
  {
    if h.dynamic.Some? {
      var (off, size) := h.dynamic.value;
      FillOnly(w, c, Top(w), off, size);
      if off + size <= |w| {
        var d := Fill(c, w, off, size).value;
        ReadSame(w, d, Top(w), off, size);
        EntriesSame(d, w, off, size / 16);
        RestOnly(w, d, And(Top(w), off, size), h, Entries(w, off, size / 16));
      }
    }
  }

  /** Sparse reading gives up exactly where its headers or its tables cannot be read, and otherwise
      the buffer holds exactly the bytes it is to read. */
  lemma SparseMeans(w: Bytes)
    ensures Sparse(w).Some? <==> HeadersReadable(w) && HeadersOf(w).Ok? && TablesReadable(w, HeadersOf(w).value)
    ensures Sparse(w).Some? ==> Reading(w, HeadersOf(w).value, Sparse(w).value)
  {
    var c := SparseSteps(w);
    if HeadersReadable(w) && HeadersOf(w).Ok? {
      TablesOnly(w, c, HeadersOf(w).value);
    }
  }

  /** The headers it goes by are those the file spells. */
  lemma HeadersOfMean(w: Bytes) returns (at: seq<nat>)
    requires HeadersReadable(w) && HeadersOf(w).Ok?
    ensures HeadersUpTo(w, Le2(w, 56), HeadersOf(w).value, at)
  {
    WordsOfHeader(w);
    var none := Headers([], None, false);
    assert HeaderAt(w, 0) == Le8(w, 32) && HeadersUpTo(w, 0, none, []);
    at := HeadersMean(w, 0, Le2(w, 56), Le8(w, 32), Le2(w, 54), Le2(w, 56), none, [], HeadersOf(w).value);
  }
}
