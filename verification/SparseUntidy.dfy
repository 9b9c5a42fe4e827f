/** A file that is not tidy: its version definitions run past the end of their segment, where
    the sparse buffer holds zeros. Reading all of it is a fault, reading it sparsely is not. */
module SparseUntidy {
  import opened Paths
  import opened Disk
  import opened Elf
  import opened Locality
  import opened SparseRead
  import opened SparseLaws

  /** A file header, a segment of the first 264 bytes, a dynamic section of five entries, a
      string table of one zero byte at 256, and a version definition of 20 bytes at 260. */
  function UntidyByte(i: nat): Byte {
    if i < 64 then
      match i
      case 0 => 0x7f
      case 1 => 0x45
      case 2 => 0x4c
      case 3 => 0x46
      case 4 => 2
      case 5 => 1
      case 18 => 62
      case 32 => 64
      case 54 => 56
      case 56 => 2
      case _ => 0
    else if i < 176 then
      match i
      case 64 => 1
      case 96 => 8
      case 97 => 1
      case 120 => 2
      case 128 => 176
      case 152 => 80
      case _ => 0
    else
      match i
      case 176 => 1
      case 192 => 5
      case 201 => 1
      case 208 => 10
      case 216 => 1
      case 224 => 0xfc
      case 225 => 0xff
      case 226 => 0xff
      case 227 => 0x6f
      case 232 => 4
      case 233 => 1
      case 240 => 0xfd
      case 241 => 0xff
      case 242 => 0xff
      case 243 => 0x6f
      case 248 => 1
      case 272 => 0xff
      case 273 => 0xff
      case 274 => 0xff
      case 275 => 0xff
      case _ => 0
  }

  function Untidy(): (w: Bytes)
    ensures |w| == 280 && forall i :: 0 <= i < 280 ==> w[i] == UntidyByte(i)
  {
    seq(280, i requires 0 <= i < 280 => UntidyByte(i))
  }

  const SEGMENT := Load(0, 264, 0)
  const HEADERS := Headers([SEGMENT], Some((176, 80)), false)
  const STRINGS := Strings(256, 1)

  function Tags(): seq<Tagged> {
    [Tagged(DT_NEEDED, 0), Tagged(DT_STRTAB, 256), Tagged(DT_STRSZ, 1), Tagged(DT_VERDEF, 260), Tagged(DT_VERDEFNUM, 1)]
  }

  // ----------------------------------------------------------------------------- words

  lemma WordOf2(b: Bytes, p: nat)
    requires p + 2 <= |b|
    ensures U16(b, p) == Some(b[p] as nat + 0x100 * b[p + 1] as nat)
  {
    assert Word(b, p, 2) == b[p] as nat + 0x100 * Word(b, p + 1, 1);
  }

  lemma WordOf4(b: Bytes, p: nat)
    requires p + 4 <= |b|
    ensures U32(b, p) == Some(b[p] as nat + 0x100 * b[p + 1] as nat + 0x1_0000 * b[p + 2] as nat + 0x100_0000 * b[p + 3] as nat)
  {
    assert Word(b, p, 4) == b[p] as nat + 0x100 * Word(b, p + 1, 3);
    assert Word(b, p + 1, 3) == b[p + 1] as nat + 0x100 * Word(b, p + 2, 2);
    assert Word(b, p + 2, 2) == b[p + 2] as nat + 0x100 * Word(b, p + 3, 1);
  }

  lemma {:induction false} WordZero(b: Bytes, p: nat, n: nat)
    requires p + n <= |b| && forall i :: p <= i < p + n ==> b[i] == 0
    ensures Word(b, p, n) == 0
    decreases n
  {
    if n > 0 {
      WordZero(b, p + 1, n - 1);
    }
  }

  lemma WordOf8(b: Bytes, p: nat)
    requires p + 8 <= |b| && forall i :: p + 4 <= i < p + 8 ==> b[i] == 0
    ensures U64(b, p) == U32(b, p)
  {
    WordZero(b, p + 4, 4);
    assert Word(b, p, 8) == b[p] as nat + 0x100 * Word(b, p + 1, 7);
    assert Word(b, p + 1, 7) == b[p + 1] as nat + 0x100 * Word(b, p + 2, 6);
    assert Word(b, p + 2, 6) == b[p + 2] as nat + 0x100 * Word(b, p + 3, 5);
    assert Word(b, p + 3, 5) == b[p + 3] as nat + 0x100 * Word(b, p + 4, 4);
    WordOf4(b, p);
  }

  lemma Value8(p: nat, v: nat)
    requires p + 8 <= 280 && forall i :: p + 4 <= i < p + 8 ==> UntidyByte(i) == 0
    requires v == UntidyByte(p) as nat + 0x100 * UntidyByte(p + 1) as nat + 0x1_0000 * UntidyByte(p + 2) as nat + 0x100_0000 * UntidyByte(p + 3) as nat
    ensures U64(Untidy(), p) == Some(v) && U32(Untidy(), p) == Some(v)
  {
    WordOf8(Untidy(), p);
    WordOf4(Untidy(), p);
  }

  lemma FileHeader()
    ensures StartsElf(Untidy()) && Untidy()[4] == 2 && Untidy()[5] == 1 && U16(Untidy(), 18) == Some(EM_X86_64)
    ensures U64(Untidy(), 32) == Some(64) && U16(Untidy(), 54) == Some(56) && U16(Untidy(), 56) == Some(2)
  {
    var w := Untidy();
    assert w[..4] == MAGIC;
    WordOf2(w, 18);
    WordOf2(w, 54);
    WordOf2(w, 56);
    Value8(32, 64);
  }

  lemma ProgramHeaders()
    ensures SegmentAt(Untidy(), 64) == Segment(PT_LOAD, SEGMENT)
    ensures SegmentAt(Untidy(), 120).kind == PT_DYNAMIC && SegmentAt(Untidy(), 120).load.offset == 176 && SegmentAt(Untidy(), 120).load.filesz == 80
  {
    WordOf4(Untidy(), 64);
    Value8(72, 0);
    Value8(80, 0);
    Value8(96, 264);
    WordOf4(Untidy(), 120);
    Value8(128, 176);
    Value8(152, 80);
  }

  lemma HeadersRead()
    ensures HeadersOf(Untidy()) == Ok(HEADERS)
  {
    var w, none := Untidy(), Headers([], None, false);
    FileHeader();
    ProgramHeaders();
    var one := AddSegment(none, SegmentAt(w, 64));
    assert one == Headers([SEGMENT], None, false);
    assert AddSegment(one, SegmentAt(w, 120)) == HEADERS;
    assert ReadHeaders(w, 176, 56, 0, HEADERS) == Ok(HEADERS);
    assert ReadHeaders(w, 120, 56, 1, one) == ReadHeaders(w, 176, 56, 0, HEADERS);
    assert ReadHeaders(w, 64, 56, 2, none) == ReadHeaders(w, 120, 56, 1, one);
  }

  lemma TagRead(b: Bytes, es: seq<Tagged>, k: nat, off: nat, next: nat, n: nat, left: nat)
    requires k < |es| && n == left + 1 && next == off + 16 && off + 16 * n <= |b| && es[k].tag != DT_NULL
    requires U64(b, off) == Some(es[k].tag) && U64(b, off + 8) == Some(es[k].val)
    requires Entries(b, next, left) == es[k + 1..]
    ensures Entries(b, off, n) == es[k..]
  {
    assert es[k..] == [es[k]] + es[k + 1..];
  }

  lemma StringTags()
    ensures U64(Untidy(), 176) == Some(DT_NEEDED) && U64(Untidy(), 184) == Some(0)
    ensures U64(Untidy(), 192) == Some(DT_STRTAB) && U64(Untidy(), 200) == Some(256)
    ensures U64(Untidy(), 208) == Some(DT_STRSZ) && U64(Untidy(), 216) == Some(1)
  {
    Value8(176, DT_NEEDED);
    Value8(184, 0);
    Value8(192, DT_STRTAB);
    Value8(200, 256);
    Value8(208, DT_STRSZ);
    Value8(216, 1);
  }

  lemma VersionTags()
    ensures U64(Untidy(), 224) == Some(DT_VERDEF) && U64(Untidy(), 232) == Some(260)
    ensures U64(Untidy(), 240) == Some(DT_VERDEFNUM) && U64(Untidy(), 248) == Some(1)
  {
    Value8(224, DT_VERDEF);
    Value8(232, 260);
    Value8(240, DT_VERDEFNUM);
    Value8(248, 1);
  }

  lemma FiveRead(b: Bytes, es: seq<Tagged>)
    requires |b| == 280 && |es| == 5 && forall k :: 0 <= k < 5 ==> es[k].tag != DT_NULL
    requires U64(b, 176) == Some(es[0].tag) && U64(b, 184) == Some(es[0].val)
    requires U64(b, 192) == Some(es[1].tag) && U64(b, 200) == Some(es[1].val)
    requires U64(b, 208) == Some(es[2].tag) && U64(b, 216) == Some(es[2].val)
    requires U64(b, 224) == Some(es[3].tag) && U64(b, 232) == Some(es[3].val)
    requires U64(b, 240) == Some(es[4].tag) && U64(b, 248) == Some(es[4].val)
    ensures Entries(b, 176, 5) == es
  {
    TagRead(b, es, 4, 240, 256, 1, 0);
    TagRead(b, es, 3, 224, 240, 2, 1);
    TagRead(b, es, 2, 208, 224, 3, 2);
    TagRead(b, es, 1, 192, 208, 4, 3);
    TagRead(b, es, 0, 176, 192, 5, 4);
    assert es[0..] == es;
  }

  lemma TagsRead()
    ensures Entries(Untidy(), 176, 5) == Tags()
  {
    StringTags();
    VersionTags();
    FiveRead(Untidy(), Tags());
  }

  // ------------------------------------------------------------------------- the tables

  /** The first `n` tags. */
  function Upto(n: nat): seq<Tagged>
    requires n <= 5
  {
    Tags()[..n]
  }

  lemma UptoOne(n: nat)
    requires n < 5
    ensures Upto(n + 1) == Upto(n) + [Tags()[n]] && Upto(n + 1)[..n] == Upto(n)
  {
  }

  lemma LastUpto(tag: nat, n: nat)
    requires n < 5
    ensures Last(Upto(n + 1), tag) == if Tags()[n].tag == tag then Some(Tags()[n].val) else Last(Upto(n), tag)
  {
    UptoOne(n);
  }

  lemma TagsLast(tag: nat)
    ensures Last(Tags(), tag) ==
      if tag == DT_VERDEFNUM then Some(1) else if tag == DT_VERDEF then Some(260) else if tag == DT_STRSZ then Some(1)
      else if tag == DT_STRTAB then Some(256) else if tag == DT_NEEDED then Some(0) else None
  {
    assert Upto(5) == Tags() && Upto(0) == [];
    LastUpto(tag, 0);
    LastUpto(tag, 1);
    LastUpto(tag, 2);
    LastUpto(tag, 3);
    LastUpto(tag, 4);
  }

  lemma NeededUpto(n: nat)
    requires 0 < n < 5 && Every(Upto(n), DT_NEEDED) == [0]
    ensures Every(Upto(n + 1), DT_NEEDED) == [0]
  {
    UptoOne(n);
  }

  lemma TagsEvery()
    ensures Every(Tags(), DT_NEEDED) == [0]
  {
    UptoOne(0);
    assert Upto(0) == [] && Upto(5) == Tags();
    assert Every(Upto(1), DT_NEEDED) == [0];
    NeededUpto(1);
    NeededUpto(2);
    NeededUpto(3);
    NeededUpto(4);
  }

  lemma EmptyName(b: Bytes)
    requires |b| == 280 && b[256] == 0
    ensures StringAt(b, STRINGS, 0) == Ok([]) && StringsAt(b, STRINGS, [0]) == Ok([[]])
  {
    assert b[256..256] == [];
    assert NameFrom(b, 256, 256, 257, Lead) == Ok([]);
    var one, none: seq<nat> := [0], [];
    assert one[1..] == none && StringsAt(b, STRINGS, none) == Ok([]);
    var name: Name := [];
    assert StringAt(b, STRINGS, one[0]) == Ok(name);
    var names, more: seq<Name> := [name], [];
    assert StringsAt(b, STRINGS, one) == Ok(names + more) && names + more == names;
  }

  function Outcome(vs: Result<seq<Version>>): Result<Elf> {
    if vs.Err? then Err(vs.fault) else Ok(Elf(None, [[]], None, None, [], [], true, false))
  }

  lemma NamesRead(b: Bytes)
    requires |b| == 280 && b[256] == 0
    ensures Named(b, STRINGS, Tags(), Tables([], []), false) == Ok(Elf(None, [[]], None, None, [], [], true, false))
  {
    EmptyName(b);
    TagsEvery();
    TagsLast(DT_SONAME);
    TagsLast(DT_RPATH);
    TagsLast(DT_RUNPATH);
    TagsLast(DT_VERDEF);
  }

  lemma VersionsRead(b: Bytes)
    requires |b| == 280
    ensures var vs := Verdefs(b, STRINGS, 260, 1); Versions(b, [SEGMENT], STRINGS, Tags()) == vs
  {
    TagsLast(DT_VERDEF);
    TagsLast(DT_VERDEFNUM);
    TagsLast(DT_VERNEED);
    var vs := Verdefs(b, STRINGS, 260, 1);
    assert VerdefTable(b, [SEGMENT], STRINGS, Tags()) == vs;
    assert vs.Ok? ==> vs.value + [] == vs.value;
  }

  /** What the dynamic section leads to, in any file that agrees with this one up to the end
      of the segment: all hangs on the version definition. */
  lemma BodyRead(b: Bytes)
    requires |b| == 280 && b[256] == 0
    ensures ReadDynamic(b, HEADERS, Tags()) == Outcome(Verdefs(b, STRINGS, 260, 1))
  {
    TagsLast(DT_STRTAB);
    TagsLast(DT_STRSZ);
    TagsLast(DT_SYMTAB);
    TagsEvery();
    VersionsRead(b);
    NamesRead(b);
  }

  lemma HeadRead(b: Bytes)
    requires |b| == 280 && Same(b, Untidy(), 0, 264)
    ensures StartsElf(b) && b[4] == 2 && b[5] == 1 && U16(b, 18) == Some(EM_X86_64)
    ensures U64(b, 32) == Some(64) && U16(b, 54) == Some(56) && U16(b, 56) == Some(2)
    ensures HeadersOf(b) == Ok(HEADERS)
  {
    var w := Untidy();
    FileHeader();
    PrefixSame(b, w);
    HeadersRead();
    assert Area(2, 56) == 112;
    HeadersOfSame(b, w);
  }

  lemma StringByte(b: Bytes)
    requires |b| == 280 && Same(b, Untidy(), 0, 264)
    ensures b[256] == 0
  {
  }

  lemma ParseRead(b: Bytes)
    requires |b| == 280 && Same(b, Untidy(), 0, 264)
    ensures Parse(b) == Outcome(Verdefs(b, STRINGS, 260, 1))
  {
    HeadRead(b);
    TagsRead();
    EntriesSame(b, Untidy(), 176, 5);
    StringByte(b);
    BodyRead(b);
    ParseBody(b);
  }

  lemma ParseBody(b: Bytes)
    requires |b| == 280 && StartsElf(b) && b[4] == 2 && b[5] == 1 && U16(b, 18) == Some(EM_X86_64)
    requires U64(b, 32) == Some(64) && U16(b, 54) == Some(56) && U16(b, 56) == Some(2)
    requires HeadersOf(b) == Ok(HEADERS) && Entries(b, 176, 5) == Tags()
    ensures Parse(b) == ReadDynamic(b, HEADERS, Tags())
  {
    var h := HeadersOf(b).value;
    assert Parse(b) == ReadBody(b, h);
    DynamicOf(b, h, Tags());
  }

  lemma DynamicOf(b: Bytes, h: Headers, es: seq<Tagged>)
    requires |b| == 280 && h.dynamic == Some((176, 80)) && Entries(b, 176, 5) == es
    ensures ReadBody(b, h) == ReadDynamic(b, h, es)
  {
    assert 80 / 16 == 5;
  }

  /** All of the file: the record names its string far beyond the end. */
  lemma WholeFault()
    ensures Parse(Untidy()) == Err(ShortVerdaux)
  {
    ParseRead(Untidy());
    WholeRecord();
    VerdefsFirst(Untidy(), STRINGS, 260, 1, 260, 0, Verdef(false, 0, 0xffff_ffff, 0), Err(ShortVerdaux), Ok([]));
  }

  lemma WholeRecord()
    ensures VerdefAt(Untidy(), 260) == Some(Verdef(false, 0, 0xffff_ffff, 0))
  {
    var w := Untidy();
    WordOf2(w, 262);
    WordOf2(w, 264);
    WordOf4(w, 272);
    WordOf4(w, 276);
  }

  /** Zeros where the record's second half should be name the empty string. */
  lemma ZerosRead(d: Bytes)
    requires |d| == 280 && Same(d, Untidy(), 0, 264) && forall i :: 264 <= i < 280 ==> d[i] == 0
    ensures Parse(d).Ok?
  {
    ParseRead(d);
    StringByte(d);
    EmptyName(d);
    ZeroTail(d);
    ZeroRecord(d);
    VerdefsFirst(d, STRINGS, 260, 1, 260, 0, Verdef(false, 0, 0, 0), Ok([Version(0, [], true)]), Ok([]));
  }

  lemma ZeroTail(d: Bytes)
    requires |d| == 280 && Same(d, Untidy(), 0, 264) && forall i :: 264 <= i < 280 ==> d[i] == 0
    ensures forall i :: 260 <= i < 280 ==> d[i] == 0
  {
  }

  lemma ZeroRecord(d: Bytes)
    requires |d| == 280 && forall i :: 260 <= i < 280 ==> d[i] == 0
    ensures VerdefAt(d, 260) == Some(Verdef(false, 0, 0, 0)) && U32(d, 260) == Some(0)
  {
    WordZero(d, 262, 2);
    WordZero(d, 264, 2);
    WordZero(d, 260, 4);
    WordZero(d, 272, 4);
    WordZero(d, 276, 4);
  }

  // ------------------------------------------------------------------- the sparse buffer

  lemma NoAddresses(n: nat)
    requires n < 3 && TableAddresses(Upto(n)) == []
    ensures TableAddresses(Upto(n + 1)) == []
  {
    UptoOne(n);
  }

  lemma AddressesAre()
    ensures TableAddresses(Tags()) == [260]
  {
    assert Upto(0) == [] && Upto(5) == Tags();
    NoAddresses(0);
    NoAddresses(1);
    NoAddresses(2);
    UptoOne(3);
    UptoOne(4);
    assert TableAddresses(Upto(4)) == [260];
    assert TableAddresses(Upto(5)) == [260];
  }

  lemma ReachIs()
    ensures Last(Tags(), DT_STRTAB).Some? && Last(Tags(), DT_STRSZ).Some?
    ensures Reach([SEGMENT], Tags()) == Some(264)
  {
    TagsLast(DT_STRTAB);
    TagsLast(DT_STRSZ);
    AddressesAre();
    var one: seq<nat> := [260];
    assert one[..0] == [];
    assert Furthest(one, 256) == Some(260);
  }

  /** The file up to `n`, and zeros behind. */
  predicate FilledTo(b: Bytes, n: nat)
    requires n <= 280
  {
    |b| == 280 && forall i :: 0 <= i < 280 ==> b[i] == if i < n then UntidyByte(i) else 0
  }

  lemma FillMore(b: Bytes, off: nat, n: nat)
    requires off + n <= 280 && FilledTo(b, off)
    ensures Fill(b, Untidy(), off, n).Some? && FilledTo(Fill(b, Untidy(), off, n).value, off + n)
  {
  }

  lemma FillAgain(b: Bytes, lo: nat, hi: nat)
    requires lo <= hi <= 280 && FilledTo(b, lo)
    ensures Fill(b, Untidy(), 0, hi).Some? && FilledTo(Fill(b, Untidy(), 0, hi).value, hi)
  {
  }

  /** A buffer that has the program headers reads them, and the file header. */
  lemma FilledHeaders(c: Bytes)
    requires FilledTo(c, 176)
    ensures ReadHeaders(c, 64, 56, 2, Headers([], None, false)) == Ok(HEADERS)
  {
    FileHeader();
    assert Area(2, 56) == 112;
    HeadersRead();
    HeadersOfSame(c, Untidy());
    PrefixSame(c, Untidy());
  }

  lemma FilledPrefix(b: Bytes)
    requires FilledTo(b, 64)
    ensures StartsElf(b) && U64(b, 32) == Some(64) && U16(b, 54) == Some(56) && U16(b, 56) == Some(2)
  {
    FileHeader();
    PrefixSame(b, Untidy());
  }

  lemma HeadersFill() returns (c: Bytes)
    ensures FilledTo(c, 176) && Sparse(Untidy()) == SparseTables(c, Untidy(), HEADERS)
  {
    var w := Untidy();
    FillMore(Zeros(280), 0, 64);
    var b := Fill(Zeros(280), w, 0, 64).value;
    FilledPrefix(b);
    assert Area(2, 56) == 112;
    FillMore(b, 64, 112);
    c := Fill(b, w, 64, 112).value;
    FilledHeaders(c);
  }

  lemma TablesFill(c: Bytes)
    requires FilledTo(c, 176)
    ensures SparseTables(c, Untidy(), HEADERS).Some? && FilledTo(SparseTables(c, Untidy(), HEADERS).value, 264)
  {
    var w := Untidy();
    FillMore(c, 176, 80);
    var e := Fill(c, w, 176, 80).value;
    EntriesSame(e, w, 176, 5);
    TagsRead();
    FillAgain(e, 256, 264);
    RestIs(e);
  }

  lemma RestIs(e: Bytes)
    requires |e| == 280
    ensures SparseRest(e, Untidy(), HEADERS, Tags()) == Fill(e, Untidy(), 0, 264)
  {
    ReachIs();
  }

  /** So the sparse reading is not the whole one on every file. */
  lemma UntidyDiffers()
    ensures Parse(Untidy()) == Err(ShortVerdaux) && Parse(ReadFile(Untidy())).Ok?
    ensures !TidyFile(Untidy())
  {
    WholeFault();
    var c := HeadersFill();
    TablesFill(c);
    ZerosRead(Sparse(Untidy()).value);
    if TidyFile(Untidy()) {
      SparseRefines(Untidy());
      assert false;
    }
  }
}
