/** `sparse` and `bytes` as elf.rs runs them: an array of zeros, as many as the file has bytes, filled in
    place, in 64-bit arithmetic that must not wrap. */
module SparseReader {
  import opened Paths
  import opened Disk
  import opened Elf
  import opened ElfReader
  import opened SparseRead
  import SparseLaws

  /** A positioned read of the file into the buffer; the end is a checked sum. */
  method FillAt(b: array<Byte>, w: Bytes, off: usize, n: usize) returns (ok: bool)
    requires b.Length == |w| && Loaded(w)
    modifies b
    ensures ok <==> Fill(old(b[..]), w, off as nat, n as nat).Some?
    ensures b[..] == if ok then Fill(old(b[..]), w, off as nat, n as nat).value else old(b[..])
  {
    if off as int + n as int >= LIMIT {
      return false;
    }
    var end := off + n;
    if end as int > b.Length {
      return false;
    }
    forall k | off as int <= k < end as int {
      b[k] := w[k];
    }
    return true;
  }

  /** The program headers out of a buffer that holds them all: here nothing is checked. */
  method FilledHeaders(b: Bytes, phoff: usize, phentsize: usize, phnum: usize) returns (h: Headers)
    requires Loaded(b) && 56 <= phentsize < 0x1_0000 && phnum < 0x1_0000
    requires phoff as nat + Area(phnum as nat, phentsize as nat) <= |b|
    ensures Ok(h) == ReadHeaders(b, phoff as nat, phentsize as nat, phnum as nat, Headers([], None, false))
  {
    h := Headers([], None, false);
    ghost var whole := ReadHeaders(b, phoff as nat, phentsize as nat, phnum as nat, h);
    var i: usize := 0;
    while i < phnum
      invariant i <= phnum
      invariant whole == ReadHeaders(b, phoff as nat + Area(i as nat, phentsize as nat), phentsize as nat, phnum as nat - i as nat, h)
    {
      AreaBound(i as nat, phnum as nat, phentsize as nat);
      AreaGrows(i as nat + 1, phnum as nat, phentsize as nat);
      h := AddSegment(h, SegmentAt(b, (phoff + i * phentsize) as nat));
      i := i + 1;
    }
  }

  /** What the sparse reader collects out of the dynamic section. */
  method TablesOf(b: Bytes, dynoff: nat, n: nat) returns (strtab: Option<nat>, strsz: Option<nat>, tables: seq<nat>)
    requires dynoff + 16 * n <= |b|
    ensures var es := Entries(b, dynoff, n);
      strtab == Last(es, DT_STRTAB) && strsz == Last(es, DT_STRSZ) && tables == TableAddresses(es)
  {
    ghost var seen: seq<Tagged> := [];
    ghost var whole := Entries(b, dynoff, n);
    strtab, strsz, tables := None, None, [];
    var i := 0;
    assert seen + whole == whole;
    while i < n
      invariant i <= n
      invariant strtab == Last(seen, DT_STRTAB) && strsz == Last(seen, DT_STRSZ) && tables == TableAddresses(seen)
      invariant Entries(b, dynoff, n) == seen + Entries(b, dynoff + 16 * i, n - i)
    {
      var e := NextEntry(b, dynoff, n, i, seen);
      if e.tag == DT_NULL {
        return;
      }
      LastStep(seen, e, DT_STRTAB);
      LastStep(seen, e, DT_STRSZ);
      AddressesStep(seen, e);
      if e.tag == DT_STRTAB {
        strtab := Some(e.val);
      } else if e.tag == DT_STRSZ {
        strsz := Some(e.val);
      } else if e.tag in {DT_SYMTAB, DT_HASH, DT_GNU_HASH, DT_VERSYM, DT_VERDEF, DT_VERNEED} {
        tables := tables + [e.val];
      }
      seen, i := seen + [e], i + 1;
    }
    assert seen + [] == seen;
  }

  lemma AddressesStep(seen: seq<Tagged>, e: Tagged)
    ensures TableAddresses(seen + [e]) == TableAddresses(seen) +
      if e.tag in {DT_SYMTAB, DT_HASH, DT_GNU_HASH, DT_VERSYM, DT_VERDEF, DT_VERNEED} then [e.val] else []
  {
    assert (seen + [e])[..|seen|] == seen;
  }

  /** The fill for the tables, or false where the reading gives up. */
  method FillTables(b: array<Byte>, w: Bytes, h: Headers) returns (ok: bool)
    requires b.Length == |w| && Loaded(w)
    requires h.dynamic.Some? ==> h.dynamic.value.0 < LIMIT && h.dynamic.value.1 < LIMIT
    modifies b
    ensures ok <==> SparseTables(old(b[..]), w, h).Some?
    ensures ok ==> b[..] == SparseTables(old(b[..]), w, h).value
  {
    if h.dynamic.None? {
      return true;
    }
    var (dynoff, dynsz) := h.dynamic.value;
    ok := FillAt(b, w, dynoff as usize, dynsz as usize);
    if !ok {
      return false;
    }
    ghost var es := Entries(b[..], dynoff, dynsz / 16);
    var strtab, strsz, tables := TablesOf(b[..], dynoff, dynsz / 16);
    if strtab.None? || strsz.None? {
      return true;
    }
    var hi := ReachOf(h.loads, es, strtab.value, strsz.value, tables);
    if hi.None? || hi.value >= LIMIT {
      return false;
    }
    ok := FillAt(b, w, 0, hi.value as usize);
  }

  /** How far the tables reach, the end of the string table and of the last segment checked. */
  method ReachOf(loads: seq<Load>, ghost es: seq<Tagged>, strtab: nat, strsz: nat, tables: seq<nat>) returns (hi: Option<nat>)
    requires Last(es, DT_STRTAB) == Some(strtab) && Last(es, DT_STRSZ) == Some(strsz) && tables == TableAddresses(es)
    ensures hi == Reach(loads, es) && (hi.Some? ==> hi.value < LIMIT)
  {
    var at := OffsetOf(loads, strtab);
    if at.Err? || at.value + strsz >= LIMIT {
      return None;
    }
    var last := Furthest(tables, strtab);
    if last.None? {
      return Some(at.value + strsz);
    }
    var end := SegmentEnd(loads, last.value);
    if end.None? {
      return None;
    }
    SegmentEndFits(loads, last.value);
    return Some(Max(at.value + strsz, end.value));
  }

  lemma {:induction false} SegmentEndFits(loads: seq<Load>, addr: nat)
    ensures SegmentEnd(loads, addr).Some? ==> SegmentEnd(loads, addr).value < LIMIT
  {
    if loads != [] {
      SegmentEndFits(loads[1..], addr);
    }
  }

  /** The dynamic segment's place is two 64-bit words. */
  lemma {:induction false} DynamicFits(b: Bytes, start: nat, size: nat, left: nat, h: Headers)
    requires size >= 56 && (h.dynamic.Some? ==> h.dynamic.value.0 < LIMIT && h.dynamic.value.1 < LIMIT)
    ensures var r := ReadHeaders(b, start, size, left, h);
      r.Ok? && r.value.dynamic.Some? ==> r.value.dynamic.value.0 < LIMIT && r.value.dynamic.value.1 < LIMIT
    decreases left
  {
    if left > 0 && start + size <= |b| {
      DynamicFits(b, start + size, size, left - 1, AddSegment(h, SegmentAt(b, start)));
    }
  }

  method SparseBuffer(w: Bytes) returns (ok: bool, b: array<Byte>)
    requires Loaded(w)
    ensures fresh(b) && b.Length == |w|
    ensures ok <==> Sparse(w).Some?
    ensures ok ==> b[..] == Sparse(w).value
  {
    b := new Byte[|w|](_ => 0);
    assert b[..] == Zeros(|w|);
    ok := FillAt(b, w, 0, 64);
    if !ok || !StartsElf(b[..]) {
      return false, b;
    }
    var phoff, phentsize, phnum := R64(b[..], 32).value, R16(b[..], 54).value, R16(b[..], 56).value;
    if phentsize < 56 || phnum == 0xffff {
      return false, b;
    }
    AreaBound(phnum as nat, phnum as nat, phentsize as nat);
    ok := FillAt(b, w, phoff, phnum * phentsize);
    if !ok {
      return false, b;
    }
    var h := FilledHeaders(b[..], phoff, phentsize, phnum);
    DynamicFits(b[..], phoff as nat, phentsize as nat, phnum as nat, Headers([], None, false));
    ok := FillTables(b, w, h);
  }

  /** `bytes` and then `parse`: reading only the headers and the tables of a tidy file comes to
      what reading all of it would. */
  method ReadAndParse(w: Bytes) returns (r: Result<Elf>)
    requires Loaded(w)
    ensures r == Parse(ReadFile(w))
    ensures SparseLaws.TidyFile(w) ==> r == Parse(w)
  {
    var ok, b := SparseBuffer(w);
    if !ok {
      r := ParseFile(w);
    } else {
      r := ParseFile(b[..]);
    }
    if SparseLaws.TidyFile(w) {
      SparseLaws.SparseRefines(w);
    }
  }
}
