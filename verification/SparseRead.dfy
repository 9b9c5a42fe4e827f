/** The fast way to read an ELF file: only the headers and the tables, in a buffer of zeros
    as long as the file. `sparse` and `bytes` in elf.rs. */
module SparseRead {
  import opened Paths
  import opened Disk
  import opened Elf

  /** A positioned read into the buffer; `None` is a read past its end. */
  function Fill(b: Bytes, w: Bytes, off: nat, n: nat): (r: Option<Bytes>)
    requires |b| == |w|
    ensures r.Some? ==> |r.value| == |w|
  {
    if off + n <= |b| then Some(b[..off] + w[off..off + n] + b[off + n..]) else None
  }

  function Zeros(n: nat): (b: Bytes)
    ensures |b| == n
  {
    seq(n, _ => 0)
  }

  /** The addresses of the tables that do not say how long they are. */
  function TableAddresses(es: seq<Tagged>): seq<nat> {
    if es == [] then []
    else
      var e := es[|es| - 1];
      TableAddresses(es[..|es| - 1]) +
      if e.tag in {DT_SYMTAB, DT_HASH, DT_GNU_HASH, DT_VERSYM, DT_VERDEF, DT_VERNEED} then [e.val] else []
  }

  /** The highest of the addresses past the string table. */
  function Furthest(tables: seq<nat>, strtab: nat): Option<nat> {
    if tables == [] then None
    else
      var a, rest := tables[|tables| - 1], Furthest(tables[..|tables| - 1], strtab);
      if a > strtab && (rest == None || a > rest.value) then Some(a) else rest
  }

  function SegmentEnd(loads: seq<Load>, addr: nat): Option<nat> {
    if loads == [] then None
    else if loads[0].vaddr <= addr && addr - loads[0].vaddr < loads[0].filesz then
      if loads[0].offset + loads[0].filesz < LIMIT then Some(loads[0].offset + loads[0].filesz) else None
    else SegmentEnd(loads[1..], addr)
  }

  /** The end of what has to be filled: that of the string table, or of the segment the highest
      table address is in, whichever is later. */
  function Reach(loads: seq<Load>, es: seq<Tagged>): Option<nat>
    requires Last(es, DT_STRTAB).Some? && Last(es, DT_STRSZ).Some?
  {
    var strtab, strsz := Last(es, DT_STRTAB).value, Last(es, DT_STRSZ).value;
    match OffsetOf(loads, strtab)
    case Err(_) => None
    case Ok(at) =>
      if at + strsz >= LIMIT then None
      else
        match Furthest(TableAddresses(es), strtab)
        case None => Some(at + strsz)
        case Some(last) =>
          match SegmentEnd(loads, last)
          case None => None
          case Some(end) => Some(Max(at + strsz, end))
  }

  /** With the dynamic section in the buffer, the tables it leads to. */
  function SparseRest(c: Bytes, w: Bytes, h: Headers, es: seq<Tagged>): (r: Option<Bytes>)
    requires |c| == |w|
    ensures r.Some? ==> |r.value| == |w|
  {
    if Last(es, DT_STRTAB) == None || Last(es, DT_STRSZ) == None then Some(c)
    else
      match Reach(h.loads, es)
      case None => None
      case Some(hi) => Fill(c, w, 0, hi)
  }

  function SparseTables(b: Bytes, w: Bytes, h: Headers): (r: Option<Bytes>)
    requires |b| == |w|
    ensures r.Some? ==> |r.value| == |w|
  {
    if h.dynamic == None then Some(b)
    else
      var (off, size) := h.dynamic.value;
      match Fill(b, w, off, size)
      case None => None
      case Some(c) => SparseRest(c, w, h, Entries(c, off, size / 16))
  }

  /** The buffer, or `None` where sparse reading gives up and all of the file is read. */
  function Sparse(w: Bytes): (r: Option<Bytes>)
    ensures r.Some? ==> |r.value| == |w|
  {
    match Fill(Zeros(|w|), w, 0, 64)
    case None => None
    case Some(b) =>
      if !StartsElf(b) then None
      else
        var (phoff, size, n) := (U64(b, 32).value, U16(b, 54).value, U16(b, 56).value);
        if size < 56 || n == 0xffff then None
        else
          match Fill(b, w, phoff, Area(n, size))
          case None => None
          case Some(c) =>
            match ReadHeaders(c, phoff, size, n, Headers([], None, false))
            case Err(_) => None
            case Ok(h) => SparseTables(c, w, h)
  }

  function ReadFile(w: Bytes): Bytes {
    match Sparse(w)
    case Some(b) => b
    case None => w
  }
}
