/** What elf.rs reads out of an ELF file, as a function of its bytes. Positions are offsets
    into the file: a slice that starts at a table is the file from that table on. */
module Elf {
  import opened Paths
  import opened Disk

  type Bytes = Content
  type Name = Content

  const LIMIT: nat := 0x1_0000_0000_0000_0000

  const MAGIC: Bytes := [0x7f, 0x45, 0x4c, 0x46]
  const EM_X86_64: nat := 62

  const PT_LOAD: nat := 1
  const PT_DYNAMIC: nat := 2
  const PT_INTERP: nat := 3

  const DT_NULL: nat := 0
  const DT_NEEDED: nat := 1
  const DT_HASH: nat := 4
  const DT_STRTAB: nat := 5
  const DT_SYMTAB: nat := 6
  const DT_STRSZ: nat := 10
  const DT_SYMENT: nat := 11
  const DT_SONAME: nat := 14
  const DT_RPATH: nat := 15
  const DT_RUNPATH: nat := 29
  const DT_GNU_HASH: nat := 0x6fff_fef5
  const DT_VERSYM: nat := 0x6fff_fff0
  const DT_VERDEF: nat := 0x6fff_fffc
  const DT_VERDEFNUM: nat := 0x6fff_fffd
  const DT_VERNEED: nat := 0x6fff_fffe
  const DT_VERNEEDNUM: nat := 0x6fff_ffff

  const VERSYM_HIDDEN: nat := 0x8000
  const STB_WEAK: nat := 2
  const STT_OBJECT: nat := 1
  const STT_FUNC: nat := 2
  const STT_TLS: nat := 6
  const STT_GNU_IFUNC: nat := 10

  datatype Fault =
    | NotElf | Not64Bit | NotLittleEndian | NotX86 | TruncatedHeader
    | TooManyHeaders | SmallHeader | HeadersPastMemory | HeadersPastFile
    | DynamicPastFile | NoStringTable | NoStringSize | StringsPastFile
    | NoSegment | SegmentPastMemory
    | NamePastTable | NameUnterminated | NameNotUtf8
    | GnuHashPastFile | ShortGnuHash | ShortBuckets | ChainOffEnd | HashPastFile | ShortHash | NoHash
    | VerdefPastFile | ShortVerdef | ShortVerdaux | VerneedPastFile | ShortVerneed | ShortVernaux
    | SmallSymbols | SymbolsPastFile | VersymPastFile | ShortVersym

  datatype Result<+T> = Ok(value: T) | Err(fault: Fault)

  datatype Load = Load(vaddr: nat, filesz: nat, offset: nat)

  datatype Sym = Sym(name: Name, version: Option<Name>, isDefault: bool, weak: bool, isObject: bool, size: nat, kind: nat)

  datatype Elf = Elf(
    soname: Option<Name>, needed: seq<Name>, rpath: Option<Name>, runpath: Option<Name>,
    exports: seq<Sym>, undefined: seq<Sym>, versioned: bool, interp: bool)

  const NOTHING := Elf(None, [], None, None, [], [], false, false)

  // ----------------------------------------------------------------------------- bytes

  /** `n` bytes, the least significant first. */
  function Word(b: Bytes, p: nat, n: nat): nat
    requires p + n <= |b|
    decreases n
  {
    if n == 0 then 0 else b[p] as nat + 0x100 * Word(b, p + 1, n - 1)
  }

  function Bound(n: nat): nat {
    if n == 0 then 1 else 0x100 * Bound(n - 1)
  }

  lemma {:induction false} WordBound(b: Bytes, p: nat, n: nat)
    requires p + n <= |b|
    ensures Word(b, p, n) < Bound(n)
    decreases n
  {
    if n > 0 {
      WordBound(b, p + 1, n - 1);
    }
  }

  lemma Bounds()
    ensures Bound(2) == 0x1_0000 && Bound(4) == 0x1_0000_0000 && Bound(8) == LIMIT
  {
    assert Bound(4) == 0x100 * 0x100 * Bound(2);
    assert Bound(6) == 0x100 * 0x100 * Bound(4);
  }

  function U16(b: Bytes, p: nat): (r: Option<nat>)
    ensures r.Some? ==> r.value < 0x1_0000
  {
    if p + 2 <= |b| then WordBound(b, p, 2); Bounds(); Some(Word(b, p, 2)) else None
  }

  function U32(b: Bytes, p: nat): (r: Option<nat>)
    ensures r.Some? ==> r.value < 0x1_0000_0000
  {
    if p + 4 <= |b| then WordBound(b, p, 4); Bounds(); Some(Word(b, p, 4)) else None
  }

  function U64(b: Bytes, p: nat): (r: Option<nat>)
    ensures r.Some? ==> r.value < LIMIT
  {
    if p + 8 <= |b| then WordBound(b, p, 8); Bounds(); Some(Word(b, p, 8)) else None
  }

  /** The room `n` entries of a size take. */
  function Area(n: nat, size: nat): nat
    decreases n
  {
    if n == 0 then 0 else Area(n - 1, size) + size
  }

  lemma {:induction false} AreaIs(n: nat, size: nat)
    ensures Area(n, size) == n * size
  {
    if n > 0 {
      AreaIs(n - 1, size);
    }
  }

  lemma {:induction false} AreaGrows(i: nat, n: nat, size: nat)
    requires i <= n
    ensures Area(i, size) <= Area(n, size)
    decreases n
  {
    if i < n {
      AreaGrows(i, n - 1, size);
    }
  }

  /** What a UTF-8 decoder still expects: nothing, that many continuation bytes, or one of the
      second bytes whose range is narrower. */
  datatype Expect = Lead | Tail1 | Tail2 | Tail3 | AfterE0 | AfterED | AfterF0 | AfterF4 | Broken

  function Expecting(e: Expect, c: nat): Expect {
    match e
    case Lead =>
      if c < 0x80 then Lead
      else if 0xC2 <= c <= 0xDF then Tail1
      else if c == 0xE0 then AfterE0
      else if c == 0xED then AfterED
      else if 0xE1 <= c <= 0xEF then Tail2
      else if c == 0xF0 then AfterF0
      else if 0xF1 <= c <= 0xF3 then Tail3
      else if c == 0xF4 then AfterF4
      else Broken
    case Tail1 => if 0x80 <= c <= 0xBF then Lead else Broken
    case Tail2 => if 0x80 <= c <= 0xBF then Tail1 else Broken
    case Tail3 => if 0x80 <= c <= 0xBF then Tail2 else Broken
    case AfterE0 => if 0xA0 <= c <= 0xBF then Tail1 else Broken
    case AfterED => if 0x80 <= c <= 0x9F then Tail1 else Broken
    case AfterF0 => if 0x90 <= c <= 0xBF then Tail2 else Broken
    case AfterF4 => if 0x80 <= c <= 0x8F then Tail2 else Broken
    case Broken => Broken
  }

  /** The string table: where it starts and how long it says it is. */
  datatype Strings = Strings(at: nat, size: nat)

  /** The name from `start` up to the first zero byte from `p` on; `e` is what its decoder
      expects at `p`. A name that is never ended is that first, whatever it holds. */
  function NameFrom(b: Bytes, start: nat, p: nat, end: nat, e: Expect): Result<Name>
    requires start <= p && end <= |b|
    decreases end - p
  {
    if p >= end then Err(NameUnterminated)
    else if b[p] == 0 then if e == Lead then Ok(b[start..p]) else Err(NameNotUtf8)
    else NameFrom(b, start, p + 1, end, Expecting(e, b[p] as nat))
  }

  function StringAt(b: Bytes, strs: Strings, from: nat): Result<Name>
    requires strs.at + strs.size <= |b|
  {
    if from > strs.size then Err(NamePastTable)
    else NameFrom(b, strs.at + from, strs.at + from, strs.at + strs.size, Lead)
  }

  function StringsAt(b: Bytes, strs: Strings, froms: seq<nat>): Result<seq<Name>>
    requires strs.at + strs.size <= |b|
  {
    if froms == [] then Ok([])
    else
      match StringAt(b, strs, froms[0])
      case Err(e) => Err(e)
      case Ok(s) =>
        match StringsAt(b, strs, froms[1..])
        case Err(e) => Err(e)
        case Ok(rest) => Ok([s] + rest)
  }

  function OptionalString(b: Bytes, strs: Strings, from: Option<nat>): Result<Option<Name>>
    requires strs.at + strs.size <= |b|
  {
    match from
    case None => Ok(None)
    case Some(v) =>
      match StringAt(b, strs, v)
      case Err(e) => Err(e)
      case Ok(s) => Ok(Some(s))
  }

  // --------------------------------------------------------------------------- headers

  /** The first segment that holds an address says where in the file it is. */
  function OffsetOf(loads: seq<Load>, addr: nat): Result<nat> {
    if loads == [] then Err(NoSegment)
    else if loads[0].vaddr <= addr && addr - loads[0].vaddr < loads[0].filesz then
      if loads[0].offset + (addr - loads[0].vaddr) < LIMIT then Ok(loads[0].offset + (addr - loads[0].vaddr))
      else Err(SegmentPastMemory)
    else OffsetOf(loads[1..], addr)
  }

  datatype Headers = Headers(loads: seq<Load>, dynamic: Option<(nat, nat)>, interp: bool)

  datatype Segment = Segment(kind: nat, load: Load)

  function SegmentAt(b: Bytes, start: nat): Segment
    requires start + 56 <= |b|
  {
    Segment(U32(b, start).value, Load(U64(b, start + 16).value, U64(b, start + 32).value, U64(b, start + 8).value))
  }

  function AddSegment(h: Headers, s: Segment): Headers {
    if s.kind == PT_LOAD then h.(loads := h.loads + [s.load])
    else if s.kind == PT_DYNAMIC then h.(dynamic := Some((s.load.offset, s.load.filesz)))
    else if s.kind == PT_INTERP then h.(interp := true)
    else h
  }

  /** `left` program headers of a size, from `start` on. */
  function ReadHeaders(b: Bytes, start: nat, size: nat, left: nat, h: Headers): Result<Headers>
    requires size >= 56
    decreases left
  {
    if left == 0 then Ok(h)
    else if start >= LIMIT then Err(HeadersPastMemory)
    else if start + size > |b| then Err(HeadersPastFile)
    else ReadHeaders(b, start + size, size, left - 1, AddSegment(h, SegmentAt(b, start)))
  }

  // ------------------------------------------------------------------- dynamic section

  datatype Tagged = Tagged(tag: nat, val: nat)

  /** The dynamic entries up to the first null one. */
  function Entries(b: Bytes, off: nat, n: nat): seq<Tagged>
    requires off + 16 * n <= |b|
    decreases n
  {
    if n == 0 || U64(b, off).value == DT_NULL then []
    else [Tagged(U64(b, off).value, U64(b, off + 8).value)] + Entries(b, off + 16, n - 1)
  }

  /** The last entry of a tag is the one that counts. */
  function Last(es: seq<Tagged>, tag: nat): Option<nat> {
    if es == [] then None
    else if es[|es| - 1].tag == tag then Some(es[|es| - 1].val)
    else Last(es[..|es| - 1], tag)
  }

  function LastOr(es: seq<Tagged>, tag: nat, none: nat): nat {
    if Last(es, tag) == None then none else Last(es, tag).value
  }

  function Every(es: seq<Tagged>, tag: nat): seq<nat> {
    if es == [] then []
    else Every(es[..|es| - 1], tag) + if es[|es| - 1].tag == tag then [es[|es| - 1].val] else []
  }

  // --------------------------------------------------------------------------- versions

  datatype Version = Version(ndx: nat, name: Name, mine: bool)

  function Onto(vs: seq<Version>, r: Result<seq<Version>>): Result<seq<Version>> {
    match r
    case Err(e) => Err(e)
    case Ok(rest) => Ok(vs + rest)
  }

  datatype Verdef = Verdef(base: bool, ndx: nat, aux: nat, next: nat)

  function VerdefAt(b: Bytes, t: nat): Option<Verdef> {
    if t + 20 > |b| then None
    else Some(Verdef(U16(b, t + 2).value % 2 == 1, U16(b, t + 4).value, U32(b, t + 12).value, U32(b, t + 16).value))
  }

  /** The name a verdef record carries; the record of the file itself carries none. */
  function VerdefName(b: Bytes, strs: Strings, t: nat, r: Verdef): Result<seq<Version>>
    requires strs.at + strs.size <= |b|
  {
    if r.base then Ok([])
    else
      match U32(b, t + r.aux)
      case None => Err(ShortVerdaux)
      case Some(at) =>
        match StringAt(b, strs, at)
        case Err(e) => Err(e)
        case Ok(name) => Ok([Version(r.ndx, name, true)])
  }

  /** The versions the file defines; `t` is the record to read. */
  function Verdefs(b: Bytes, strs: Strings, t: nat, num: nat): Result<seq<Version>>
    requires strs.at + strs.size <= |b|
    decreases num
  {
    if num == 0 then Ok([])
    else
      match VerdefAt(b, t)
      case None => Err(ShortVerdef)
      case Some(r) =>
        match VerdefName(b, strs, t, r)
        case Err(e) => Err(e)
        case Ok(vs) => if r.next == 0 then Ok(vs) else Onto(vs, Verdefs(b, strs, t + r.next, num - 1))
  }

  datatype Vernaux = Vernaux(other: nat, name: nat, next: nat)

  function VernauxAt(b: Bytes, a: nat): Option<Vernaux> {
    if a + 16 > |b| then None
    else Some(Vernaux(U16(b, a + 6).value, U32(b, a + 8).value, U32(b, a + 12).value))
  }

  /** The versions one needed file is asked for; `a` is the record to read. */
  function Vernauxs(b: Bytes, strs: Strings, a: nat, cnt: nat): Result<seq<Version>>
    requires strs.at + strs.size <= |b|
    decreases cnt
  {
    if cnt == 0 then Ok([])
    else
      match VernauxAt(b, a)
      case None => Err(ShortVernaux)
      case Some(r) =>
        match StringAt(b, strs, r.name)
        case Err(e) => Err(e)
        case Ok(name) =>
          var vs := [Version(r.other, name, false)];
          if r.next == 0 then Ok(vs) else Onto(vs, Vernauxs(b, strs, a + r.next, cnt - 1))
  }

  datatype Verneed = Verneed(cnt: nat, aux: nat, next: nat)

  function VerneedAt(b: Bytes, t: nat): Option<Verneed> {
    if t + 16 > |b| then None
    else Some(Verneed(U16(b, t + 2).value, U32(b, t + 8).value, U32(b, t + 12).value))
  }

  function Verneeds(b: Bytes, strs: Strings, t: nat, num: nat): Result<seq<Version>>
    requires strs.at + strs.size <= |b|
    decreases num
  {
    if num == 0 then Ok([])
    else
      match VerneedAt(b, t)
      case None => Err(ShortVerneed)
      case Some(r) =>
        match Vernauxs(b, strs, t + r.aux, r.cnt)
        case Err(e) => Err(e)
        case Ok(vs) => if r.next == 0 then Ok(vs) else Onto(vs, Verneeds(b, strs, t + r.next, num - 1))
  }

  /** A chain of definitions is its first record and the rest. */
  lemma VerdefsOne(b: Bytes, strs: Strings, t: nat, num: nat, vs: Result<seq<Version>>, rest: Result<seq<Version>>)
    requires strs.at + strs.size <= |b| && num > 0 && VerdefAt(b, t).Some?
    requires vs == VerdefName(b, strs, t, VerdefAt(b, t).value)
    requires VerdefAt(b, t).value.next != 0 ==> rest == Verdefs(b, strs, t + VerdefAt(b, t).value.next, num - 1)
    ensures Verdefs(b, strs, t, num) == if vs.Err? || VerdefAt(b, t).value.next == 0 then vs else Onto(vs.value, rest)
  {
  }

  lemma VerneedsOne(b: Bytes, strs: Strings, t: nat, num: nat, vs: Result<seq<Version>>, rest: Result<seq<Version>>)
    requires strs.at + strs.size <= |b| && num > 0 && VerneedAt(b, t).Some?
    requires var r := VerneedAt(b, t).value; vs == Vernauxs(b, strs, t + r.aux, r.cnt)
    requires VerneedAt(b, t).value.next != 0 ==> rest == Verneeds(b, strs, t + VerneedAt(b, t).value.next, num - 1)
    ensures Verneeds(b, strs, t, num) == if vs.Err? || VerneedAt(b, t).value.next == 0 then vs else Onto(vs.value, rest)
  {
  }

  function VerdefTable(b: Bytes, loads: seq<Load>, strs: Strings, es: seq<Tagged>): Result<seq<Version>>
    requires strs.at + strs.size <= |b|
  {
    match Last(es, DT_VERDEF)
    case None => Ok([])
    case Some(addr) =>
      match OffsetOf(loads, addr)
      case Err(e) => Err(e)
      case Ok(t) => if t > |b| then Err(VerdefPastFile) else Verdefs(b, strs, t, LastOr(es, DT_VERDEFNUM, 0))
  }

  function VerneedTable(b: Bytes, loads: seq<Load>, strs: Strings, es: seq<Tagged>): Result<seq<Version>>
    requires strs.at + strs.size <= |b|
  {
    match Last(es, DT_VERNEED)
    case None => Ok([])
    case Some(addr) =>
      match OffsetOf(loads, addr)
      case Err(e) => Err(e)
      case Ok(t) => if t > |b| then Err(VerneedPastFile) else Verneeds(b, strs, t, LastOr(es, DT_VERNEEDNUM, 0))
  }

  function Versions(b: Bytes, loads: seq<Load>, strs: Strings, es: seq<Tagged>): Result<seq<Version>>
    requires strs.at + strs.size <= |b|
  {
    match VerdefTable(b, loads, strs, es)
    case Err(e) => Err(e)
    case Ok(defs) => Onto(defs, VerneedTable(b, loads, strs, es))
  }

  // ---------------------------------------------------------------------------- symbols

  function Max(a: nat, b: nat): nat {
    if a >= b then a else b
  }

  /** The largest of the buckets, or 0. */
  function LastBucket(b: Bytes, at: nat, n: nat): nat
    requires at + 4 * n <= |b|
    decreases n
  {
    if n == 0 then 0 else Max(LastBucket(b, at, n - 1), U32(b, at + 4 * (n - 1)).value)
  }

  /** The first chain word from `i` on with its low bit set. */
  function ChainEnd(b: Bytes, at: nat, i: nat): Option<nat>
    decreases |b| - 4 * i
  {
    if at + 4 * i + 4 > |b| then None
    else if U32(b, at + 4 * i).value % 2 == 1 then Some(i)
    else ChainEnd(b, at, i + 1)
  }

  datatype GnuHeader = GnuHeader(nbuckets: nat, symoffset: nat, buckets: nat)

  /** A GNU hash table's sizes, and where its buckets start behind the bloom filter. */
  function GnuHeaderAt(b: Bytes, t: nat): Option<GnuHeader> {
    if t + 12 > |b| then None
    else Some(GnuHeader(U32(b, t).value, U32(b, t + 4).value, t + 16 + 8 * U32(b, t + 8).value))
  }

  function GnuChains(b: Bytes, g: GnuHeader, last: nat): Result<nat> {
    if last < g.symoffset then Ok(g.symoffset)
    else
      match ChainEnd(b, g.buckets + 4 * g.nbuckets, last - g.symoffset)
      case None => Err(ChainOffEnd)
      case Some(i) => Ok(g.symoffset + i + 1)
  }

  function GnuCount(b: Bytes, t: nat): Result<nat> {
    if t > |b| then Err(GnuHashPastFile)
    else
      match GnuHeaderAt(b, t)
      case None => Err(ShortGnuHash)
      case Some(g) =>
        if g.nbuckets == 0 then GnuChains(b, g, 0)
        else if g.buckets + 4 * g.nbuckets > |b| then Err(ShortBuckets)
        else GnuChains(b, g, LastBucket(b, g.buckets, g.nbuckets))
  }

  function Count(b: Bytes, loads: seq<Load>, hash: Option<nat>, gnu: Option<nat>): Result<nat> {
    if gnu.Some? then
      match OffsetOf(loads, gnu.value)
      case Err(e) => Err(e)
      case Ok(t) => GnuCount(b, t)
    else if hash.Some? then
      match OffsetOf(loads, hash.value)
      case Err(e) => Err(e)
      case Ok(t) => if t > |b| then Err(HashPastFile) else if t + 8 > |b| then Err(ShortHash) else Ok(U32(b, t + 4).value)
    else Err(NoHash)
  }

  function FindVersion(names: seq<Version>, ndx: nat): Option<Version> {
    if names == [] then None
    else if names[0].ndx == ndx then Some(names[0])
    else FindVersion(names[1..], ndx)
  }

  /** A symbol's version, and whether it is the default: for that it must be one the file itself
      defines. */
  function VersionOf(names: seq<Version>, raw: nat): (Option<Name>, bool) {
    var (ndx, shown) := (raw % VERSYM_HIDDEN, raw < VERSYM_HIDDEN);
    if ndx <= 1 then (None, true)
    else
      match FindVersion(names, ndx)
      case None => (None, shown)
      case Some(v) => (Some(v.name), v.mine && shown)
  }

  datatype Tables = Tables(exports: seq<Sym>, undefined: seq<Sym>)

  /** Symbol `i`: its entry and its version word. */
  datatype Table = Table(start: nat, entsize: nat, versym: Option<nat>)

  predicate Fits(b: Bytes, strs: Strings, t: Table, n: nat) {
    strs.at + strs.size <= |b| && t.entsize >= 24 && t.start + Area(n, t.entsize) <= |b|
  }

  function EntryAt(t: Table, i: nat): nat {
    t.start + Area(i, t.entsize)
  }

  lemma EntryFits(b: Bytes, strs: Strings, t: Table, i: nat, n: nat)
    requires Fits(b, strs, t, n) && i < n
    ensures EntryAt(t, i) + t.entsize <= |b|
  {
    AreaGrows(i + 1, n, t.entsize);
  }

  /** An unnamed entry is no symbol. */
  function SymbolAt(b: Bytes, strs: Strings, names: seq<Version>, t: Table, i: nat): Result<Option<Sym>>
    requires strs.at + strs.size <= |b| && EntryAt(t, i) + 24 <= |b|
  {
    var e := EntryAt(t, i);
    var (name, info, size) := (U32(b, e).value, b[e + 4] as nat, U64(b, e + 16).value);
    if name == 0 then Ok(None)
    else if t.versym.Some? && U16(b, t.versym.value + 2 * i).None? then Err(ShortVersym)
    else
      var (version, isDefault) :=
        if t.versym.Some? then VersionOf(names, U16(b, t.versym.value + 2 * i).value) else (None, true);
      match StringAt(b, strs, name)
      case Err(f) => Err(f)
      case Ok(s) =>
        var kind := info % 16;
        Ok(Some(Sym(s, version, isDefault, info / 16 == STB_WEAK, kind == STT_OBJECT || kind == STT_TLS, size, kind)))
  }

  predicate Undefined(b: Bytes, t: Table, i: nat)
    requires EntryAt(t, i) + 24 <= |b|
  {
    U16(b, EntryAt(t, i) + 6).value == 0
  }

  /** One more entry: a named symbol goes to one side or the other. */
  function Sided(so: Result<Tables>, entry: Result<Option<Sym>>, undefined: bool): Result<Tables> {
    match so
    case Err(f) => Err(f)
    case Ok(ts) =>
      match entry
      case Err(f) => Err(f)
      case Ok(None) => Ok(ts)
      case Ok(Some(sym)) =>
        if undefined then Ok(ts.(undefined := ts.undefined + [sym])) else Ok(ts.(exports := ts.exports + [sym]))
  }

  /** The table read in order. */
  function SymbolsUpTo(b: Bytes, strs: Strings, names: seq<Version>, t: Table, n: nat): Result<Tables>
    requires Fits(b, strs, t, n)
    decreases n
  {
    if n == 0 then Ok(Tables([], []))
    else
      EntryFits(b, strs, t, n - 1, n);
      Sided(SymbolsUpTo(b, strs, names, t, n - 1), SymbolAt(b, strs, names, t, n - 1), Undefined(b, t, n - 1))
  }

  /** How many entries fit before the end. */
  function Room(start: nat, entsize: nat, end: Option<nat>): nat
    requires entsize > 0
  {
    if end.Some? && end.value > start then (end.value - start) / entsize else 0
  }

  function SymbolCount(b: Bytes, loads: seq<Load>, es: seq<Tagged>, start: nat, entsize: nat, end: Option<nat>): Result<nat>
    requires entsize > 0
  {
    match Count(b, loads, Last(es, DT_HASH), Last(es, DT_GNU_HASH))
    case Err(f) => Err(f)
    case Ok(n) => Ok(Max(n, Room(start, entsize, end)))
  }

  function Symbols(b: Bytes, loads: seq<Load>, strs: Strings, names: seq<Version>, es: seq<Tagged>, end: Option<nat>): Result<Tables>
    requires strs.at + strs.size <= |b|
  {
    if Last(es, DT_SYMTAB) == None then Ok(Tables([], []))
    else
      var entsize := LastOr(es, DT_SYMENT, 24);
      if entsize < 24 then Err(SmallSymbols)
      else
        match OffsetOf(loads, Last(es, DT_SYMTAB).value)
        case Err(f) => Err(f)
        case Ok(start) =>
          match SymbolCount(b, loads, es, start, entsize, end)
          case Err(f) => Err(f)
          case Ok(n) =>
            if start > |b| || Area(n, entsize) >= LIMIT || start + Area(n, entsize) > |b| then Err(SymbolsPastFile)
            else
              match Last(es, DT_VERSYM)
              case None => SymbolsUpTo(b, strs, names, Table(start, entsize, None), n)
              case Some(a) =>
                match OffsetOf(loads, a)
                case Err(f) => Err(f)
                case Ok(v) =>
                  if v > |b| then Err(VersymPastFile)
                  else SymbolsUpTo(b, strs, names, Table(start, entsize, Some(v)), n)
  }

  // ------------------------------------------------------------------------------ parse

  function Listed(a: Option<nat>): seq<nat> {
    if a.Some? then [a.value] else []
  }

  /** Where the tables a symbol table could run into start. */
  function Neighbours(es: seq<Tagged>): seq<nat> {
    Listed(Last(es, DT_STRTAB)) + Listed(Last(es, DT_VERSYM)) + Listed(Last(es, DT_VERDEF))
      + Listed(Last(es, DT_VERNEED)) + Listed(Last(es, DT_HASH)) + Listed(Last(es, DT_GNU_HASH))
  }

  function LeastAbove(ns: seq<nat>, s: nat): Option<nat> {
    if ns == [] then None
    else
      var rest := LeastAbove(ns[1..], s);
      if ns[0] > s && (rest == None || ns[0] <= rest.value) then Some(ns[0]) else rest
  }

  /** Where the symbol table has to have ended. */
  function SymbolsEnd(loads: seq<Load>, es: seq<Tagged>): Result<Option<nat>> {
    match Last(es, DT_SYMTAB)
    case None => Ok(None)
    case Some(s) =>
      match LeastAbove(Neighbours(es), s)
      case None => Ok(None)
      case Some(a) =>
        match OffsetOf(loads, a)
        case Err(f) => Err(f)
        case Ok(off) => Ok(Some(off))
  }

  predicate NothingAsked(es: seq<Tagged>) {
    Every(es, DT_NEEDED) == [] && Last(es, DT_SONAME) == None && Last(es, DT_RPATH) == None
    && Last(es, DT_RUNPATH) == None && Last(es, DT_SYMTAB) == None
  }

  function Named(b: Bytes, strs: Strings, es: seq<Tagged>, tables: Tables, interp: bool): Result<Elf>
    requires strs.at + strs.size <= |b|
  {
    match OptionalString(b, strs, Last(es, DT_SONAME))
    case Err(f) => Err(f)
    case Ok(soname) =>
      match StringsAt(b, strs, Every(es, DT_NEEDED))
      case Err(f) => Err(f)
      case Ok(needed) =>
        match OptionalString(b, strs, Last(es, DT_RPATH))
        case Err(f) => Err(f)
        case Ok(rpath) =>
          match OptionalString(b, strs, Last(es, DT_RUNPATH))
          case Err(f) => Err(f)
          case Ok(runpath) =>
            Ok(Elf(soname, needed, rpath, runpath, tables.exports, tables.undefined, Last(es, DT_VERDEF).Some?, interp))
  }

  /** Everything behind the dynamic section's addresses. */
  function ReadTables(b: Bytes, loads: seq<Load>, strs: Strings, es: seq<Tagged>, end: Option<nat>, interp: bool): Result<Elf>
    requires strs.at + strs.size <= |b|
  {
    match Versions(b, loads, strs, es)
    case Err(f) => Err(f)
    case Ok(names) =>
      match Symbols(b, loads, strs, names, es, end)
      case Err(f) => Err(f)
      case Ok(tables) => Named(b, strs, es, tables, interp)
  }

  function ReadDynamic(b: Bytes, h: Headers, es: seq<Tagged>): Result<Elf> {
    if NothingAsked(es) then Ok(NOTHING)
    else if Last(es, DT_STRTAB) == None then Err(NoStringTable)
    else
      match OffsetOf(h.loads, Last(es, DT_STRTAB).value)
      case Err(f) => Err(f)
      case Ok(strtab) =>
        match SymbolsEnd(h.loads, es)
        case Err(f) => Err(f)
        case Ok(end) =>
          if Last(es, DT_STRSZ) == None then Err(NoStringSize)
          else if strtab + Last(es, DT_STRSZ).value > |b| then Err(StringsPastFile)
          else ReadTables(b, h.loads, Strings(strtab, Last(es, DT_STRSZ).value), es, end, h.interp)
  }

  function ReadBody(b: Bytes, h: Headers): Result<Elf> {
    if h.dynamic == None then Ok(NOTHING)
    else
      var (off, size) := h.dynamic.value;
      if off + size > |b| then Err(DynamicPastFile)
      else ReadDynamic(b, h, Entries(b, off, size / 16))
  }

  predicate StartsElf(b: Bytes) {
    |b| >= 4 && b[..4] == MAGIC
  }

  function Parse(b: Bytes): Result<Elf> {
    if !StartsElf(b) then Err(NotElf)
    else if |b| <= 4 || b[4] != 2 then Err(Not64Bit)
    else if |b| <= 5 || b[5] != 1 then Err(NotLittleEndian)
    else if U16(b, 18) != Some(EM_X86_64) then Err(NotX86)
    else if |b| < 58 then Err(TruncatedHeader)
    else
      var (phoff, size, n) := (U64(b, 32).value, U16(b, 54).value, U16(b, 56).value);
      if n == 0 then Ok(NOTHING)
      else if n == 0xffff then Err(TooManyHeaders)
      else if size < 56 then Err(SmallHeader)
      else
        match ReadHeaders(b, phoff, size, n, Headers([], None, false))
        case Err(f) => Err(f)
        case Ok(h) => ReadBody(b, h)
  }
}
