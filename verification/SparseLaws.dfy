/** Reading a file through the sparse buffer gives what reading all of it gives. */
module SparseLaws {
  import opened Paths
  import opened Disk
  import opened Elf
  import opened Locality
  import opened SparseRead

  // ---------------------------------------------------------------------------- the buffer

  lemma FillSame(b: Bytes, w: Bytes, off: nat, n: nat, lo: nat, hi: nat)
    requires |b| == |w| && Fill(b, w, off, n).Some?
    ensures Same(Fill(b, w, off, n).value, w, off, off + n)
    ensures Same(b, w, lo, hi) ==> Same(Fill(b, w, off, n).value, w, lo, hi)
  {
    var c := Fill(b, w, off, n).value;
    assert forall i :: off <= i < off + n ==> c[i] == w[i];
    assert forall i :: 0 <= i < off || off + n <= i < |w| ==> c[i] == b[i];
  }

  // ------------------------------------------------------------------------ a tidy layout

  /** The addresses the tables start at, the string table's among them. */
  function Starts(es: seq<Tagged>): seq<nat> {
    Listed(Last(es, DT_STRTAB)) + TableAddresses(es)
  }

  /** A bound for a table: the start of the next, or, for the last one, the end of its segment,
      or of the string table if that is last. */
  ghost predicate EndsBy(loads: seq<Load>, es: seq<Tagged>, addr: nat, lim: nat)
    requires Last(es, DT_STRTAB).Some? && Last(es, DT_STRSZ).Some?
  {
    match LeastAbove(Starts(es), addr)
    case Some(next) => OffsetOf(loads, next) == Ok(lim)
    case None =>
      var strtab := Last(es, DT_STRTAB).value;
      if addr > strtab then SegmentEnd(loads, addr) == Some(lim)
      else OffsetOf(loads, strtab).Ok? && lim == OffsetOf(loads, strtab).value + Last(es, DT_STRSZ).value
  }

  /** Later addresses lie no earlier in the file. */
  ghost predicate Monotone(loads: seq<Load>, starts: seq<nat>) {
    forall a, b :: a in starts && b in starts && a <= b ==>
      OffsetOf(loads, a).Ok? && OffsetOf(loads, b).Ok? && OffsetOf(loads, a).value <= OffsetOf(loads, b).value
  }

  /** Addresses map to offsets in order, and every table ends by where the next one starts. */
  ghost predicate TidyTables(w: Bytes, loads: seq<Load>, es: seq<Tagged>)
    requires Last(es, DT_STRTAB).Some? && Last(es, DT_STRSZ).Some?
  {
    && Monotone(loads, Starts(es))
    && var strtab := OffsetOf(loads, Last(es, DT_STRTAB).value);
       strtab.Ok? && strtab.value + Last(es, DT_STRSZ).value <= |w| ==>
       forall tag :: tag in TABLES && Last(es, tag).Some? ==> (
         var addr := Last(es, tag).value;
         OffsetOf(loads, addr).Ok? &&
         exists lim: nat :: EndsBy(loads, es, addr, lim) &&
           TableWithin(w, loads, Strings(strtab.value, Last(es, DT_STRSZ).value), es, tag, OffsetOf(loads, addr).value, lim))
  }

  // ------------------------------------------------------------- the reach of a tidy layout

  lemma {:induction false} LastTable(es: seq<Tagged>, tag: nat)
    requires tag in TABLES && Last(es, tag).Some?
    ensures Last(es, tag).value in TableAddresses(es)
  {
    if es[|es| - 1].tag != tag {
      LastTable(es[..|es| - 1], tag);
    }
  }

  lemma {:induction false} LeastAboveIs(ns: seq<nat>, s: nat)
    ensures var r := LeastAbove(ns, s);
      if r.Some? then r.value in ns && r.value > s else forall a :: a in ns ==> a <= s
  {
    if ns != [] {
      LeastAboveIs(ns[1..], s);
      assert ns == [ns[0]] + ns[1..];
    }
  }

  lemma {:induction false} FurthestIs(tables: seq<nat>, strtab: nat)
    ensures var r := Furthest(tables, strtab);
      && (r.Some? ==> r.value in tables && r.value > strtab)
      && forall a :: a in tables ==> a <= if r.Some? then r.value else strtab
  {
    if tables != [] {
      FurthestIs(tables[..|tables| - 1], strtab);
      assert tables == tables[..|tables| - 1] + [tables[|tables| - 1]];
    }
  }

  lemma {:induction false} InSegment(loads: seq<Load>, addr: nat)
    requires SegmentEnd(loads, addr).Some?
    ensures OffsetOf(loads, addr).Ok? && OffsetOf(loads, addr).value <= SegmentEnd(loads, addr).value
  {
    if !(loads[0].vaddr <= addr && addr - loads[0].vaddr < loads[0].filesz) {
      InSegment(loads[1..], addr);
    }
  }

  /** The highest start there is bounds every other's offset. */
  lemma StartsReached(loads: seq<Load>, es: seq<Tagged>, next: nat)
    requires Last(es, DT_STRTAB).Some? && Last(es, DT_STRSZ).Some? && Monotone(loads, Starts(es))
    requires Reach(loads, es).Some? && next in Starts(es)
    ensures OffsetOf(loads, next).Ok? && OffsetOf(loads, next).value <= Reach(loads, es).value
  {
    var strtab, tables := Last(es, DT_STRTAB).value, TableAddresses(es);
    var last := Furthest(tables, strtab);
    FurthestIs(tables, strtab);
    assert strtab in Starts(es) && forall a :: a in tables ==> a in Starts(es);
    if last.Some? {
      InSegment(loads, last.value);
      assert next <= last.value;
    } else {
      assert next <= strtab;
    }
  }

  /** Wherever a table has to have ended, the fill reaches that far. */
  lemma EndsReached(loads: seq<Load>, es: seq<Tagged>, addr: nat, lim: nat)
    requires Last(es, DT_STRTAB).Some? && Last(es, DT_STRSZ).Some? && Monotone(loads, Starts(es))
    requires Reach(loads, es).Some? && addr in TableAddresses(es) && EndsBy(loads, es, addr, lim)
    ensures lim <= Reach(loads, es).value
  {
    var strtab, tables := Last(es, DT_STRTAB).value, TableAddresses(es);
    LeastAboveIs(Starts(es), addr);
    match LeastAbove(Starts(es), addr)
    case Some(next) => StartsReached(loads, es, next);
    case None =>
      FurthestIs(tables, strtab);
      assert forall a :: a in tables ==> a in Starts(es);
  }

  // ------------------------------------------------------------------------ the whole file

  /** Where the layout matters: a dynamic section with a string table of stated size that the
      fill does not give up on. */
  ghost predicate Tidy(w: Bytes, h: Headers, es: seq<Tagged>) {
    Last(es, DT_STRTAB).Some? && Last(es, DT_STRSZ).Some? && Reach(h.loads, es).Some? ==> TidyTables(w, h.loads, es)
  }

  /** In a tidy layout each table is read no further than the fill reaches. */
  lemma TidyWithin(b: Bytes, w: Bytes, loads: seq<Load>, es: seq<Tagged>)
    requires Last(es, DT_STRTAB).Some? && Last(es, DT_STRSZ).Some? && TidyTables(w, loads, es) && Reach(loads, es).Some?
    requires Reach(loads, es).value <= |w| && Same(b, w, 0, Reach(loads, es).value)
    requires var strtab := OffsetOf(loads, Last(es, DT_STRTAB).value); strtab.value + Last(es, DT_STRSZ).value <= |w|
    ensures SameTables(b, w, loads, Strings(OffsetOf(loads, Last(es, DT_STRTAB).value).value, Last(es, DT_STRSZ).value), es)
  {
    var strs := Strings(OffsetOf(loads, Last(es, DT_STRTAB).value).value, Last(es, DT_STRSZ).value);
    forall tag | tag in TABLES && Last(es, tag).Some? && OffsetOf(loads, Last(es, tag).value).Ok?
      ensures SameTagged(b, w, loads, strs, es, tag, OffsetOf(loads, Last(es, tag).value).value)
    {
      var addr := Last(es, tag).value;
      var at := OffsetOf(loads, addr).value;
      var lim: nat :| EndsBy(loads, es, addr, lim) && TableWithin(w, loads, strs, es, tag, at, lim);
      LastTable(es, tag);
      EndsReached(loads, es, addr, lim);
      assert lim <= |w| && Same(b, w, at, lim);
    }
  }

  /** The dynamic section leads to nothing the fill left out. */
  lemma DynamicFilled(b: Bytes, w: Bytes, h: Headers, es: seq<Tagged>)
    requires Last(es, DT_STRTAB).Some? && Last(es, DT_STRSZ).Some? && Reach(h.loads, es).Some?
    requires Reach(h.loads, es).value <= |w| && Same(b, w, 0, Reach(h.loads, es).value) && TidyTables(w, h.loads, es)
    ensures SameDynamic(b, w, h, es)
  {
    TidyWithin(b, w, h.loads, es);
  }

  lemma BodyFilled(b: Bytes, w: Bytes, h: Headers)
    requires |b| == |w| && SparseTables(b, w, h).Some?
    requires h.dynamic.Some? && h.dynamic.value.0 + h.dynamic.value.1 <= |w| ==>
      Tidy(w, h, Entries(w, h.dynamic.value.0, h.dynamic.value.1 / 16))
    ensures SameBody(SparseTables(b, w, h).value, w, h)
  {
    if h.dynamic.Some? {
      var off, size := h.dynamic.value.0, h.dynamic.value.1;
      var c := Fill(b, w, off, size).value;
      FillSame(b, w, off, size, 0, 0);
      EntriesSame(c, w, off, size / 16);
      RestFilled(c, w, h, Entries(w, off, size / 16), off, off + size);
    }
  }

  /** With the dynamic section in the buffer, the last fill brings all it leads to. */
  lemma RestFilled(c: Bytes, w: Bytes, h: Headers, es: seq<Tagged>, lo: nat, hi: nat)
    requires |c| == |w| && Tidy(w, h, es) && Same(c, w, lo, hi) && SparseRest(c, w, h, es).Some?
    ensures var d := SparseRest(c, w, h, es).value; Same(d, w, lo, hi) && SameDynamic(d, w, h, es)
  {
    if Last(es, DT_STRTAB).Some? && Last(es, DT_STRSZ).Some? {
      var reach := Reach(h.loads, es).value;
      FillSame(c, w, 0, reach, lo, hi);
      DynamicFilled(Fill(c, w, 0, reach).value, w, h, es);
    }
  }

  /** Filling only adds to what agrees. */
  lemma TablesKeep(b: Bytes, w: Bytes, h: Headers, lo: nat, hi: nat)
    requires |b| == |w| && SparseTables(b, w, h).Some? && Same(b, w, lo, hi)
    ensures Same(SparseTables(b, w, h).value, w, lo, hi)
  {
    if h.dynamic.Some? {
      var off, size := h.dynamic.value.0, h.dynamic.value.1;
      var c := Fill(b, w, off, size).value;
      FillSame(b, w, off, size, lo, hi);
      var es := Entries(c, off, size / 16);
      if Last(es, DT_STRTAB).Some? && Last(es, DT_STRSZ).Some? {
        FillSame(c, w, 0, Reach(h.loads, es).value, lo, hi);
      }
    }
  }

  /** A file is tidy if its tables are, or if reading it never gets as far as them. */
  ghost predicate TidyFile(w: Bytes) {
    HeadersOf(w).Ok? ==>
      var h := HeadersOf(w).value;
      h.dynamic.Some? && h.dynamic.value.0 + h.dynamic.value.1 <= |w| ==>
        Tidy(w, h, Entries(w, h.dynamic.value.0, h.dynamic.value.1 / 16))
  }

  /** A buffer that has the file header and the program headers. */
  ghost predicate HasHeaders(w: Bytes, c: Bytes) {
    64 <= |w| && Same(c, w, 0, 64) && U16(w, 54).value >= 56 &&
    var (phoff, n, size) := (U64(w, 32).value, U16(w, 56).value, U16(w, 54).value);
    phoff + Area(n, size) <= |w| && Same(c, w, phoff, phoff + Area(n, size))
  }

  /** The first two fills of a file that is not given up on. */
  lemma SparseFills(w: Bytes) returns (c: Bytes)
    requires Sparse(w).Some?
    ensures HasHeaders(w, c)
    ensures HeadersOf(w).Ok? && SparseTables(c, w, HeadersOf(w).value) == Sparse(w)
  {
    var z := Zeros(|w|);
    var b := Fill(z, w, 0, 64).value;
    FillSame(z, w, 0, 64, 0, 0);
    PrefixSame(b, w);
    var phoff, size, n := U64(w, 32).value, U16(w, 54).value, U16(w, 56).value;
    c := Fill(b, w, phoff, Area(n, size)).value;
    FillSame(b, w, phoff, Area(n, size), 0, 64);
    PrefixSame(c, w);
    HeadersOfSame(c, w);
    assert HeadersOf(c) == ReadHeaders(c, phoff, size, n, Headers([], None, false));
  }

  lemma SparseSame(w: Bytes)
    requires Sparse(w).Some? && TidyFile(w)
    ensures Parse(Sparse(w).value) == Parse(w)
  {
    var c := SparseFills(w);
    var h, d := HeadersOf(w).value, Sparse(w).value;
    var phoff, n, size := U64(w, 32).value, U16(w, 56).value, U16(w, 54).value;
    TablesKeep(c, w, h, 0, 64);
    TablesKeep(c, w, h, phoff, phoff + Area(n, size));
    BodyFilled(c, w, h);
    ParseLocal(d, w);
  }

  /** Sparse reading refines whole-file reading: on every file whose tables, as far as they
      are read at all, are laid out in order, it parses to the same result. */
  lemma SparseRefines(w: Bytes)
    requires TidyFile(w)
    ensures Parse(ReadFile(w)) == Parse(w)
  {
    if Sparse(w).Some? {
      SparseSame(w);
    }
  }

  /** Where nothing is asked of the layout: the fill gives up, there is no dynamic section, or
      no string table of stated size. */
  lemma TidyWithoutTables(w: Bytes)
    requires
      || HeadersOf(w).Err?
      || HeadersOf(w).value.dynamic.None?
      || (var (off, size) := HeadersOf(w).value.dynamic.value;
          off + size > |w| ||
          var es := Entries(w, off, size / 16);
          Last(es, DT_STRTAB).None? || Last(es, DT_STRSZ).None? || Reach(HeadersOf(w).value.loads, es).None?)
    ensures TidyFile(w) && Parse(ReadFile(w)) == Parse(w)
  {
    SparseRefines(w);
  }
}
