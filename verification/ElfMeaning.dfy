/** Where in a file each thing the parser answers with stands, by offset and by number: chapter 4
    and 5 of the System V gABI, and the Symbol Versioning section of the LSB Core
    Specification. */
module ElfMeaning {
  import opened Paths
  import opened Disk
  import opened Elf
  import Locality
  import GnuHash

  // ----------------------------------------------------------------------------- words

  function Le2(b: Bytes, p: nat): nat
    requires p + 2 <= |b|
  {
    b[p] as nat + 0x100 * b[p + 1] as nat
  }

  function Le4(b: Bytes, p: nat): nat
    requires p + 4 <= |b|
  {
    Le2(b, p) + 0x1_0000 * Le2(b, p + 2)
  }

  function Le8(b: Bytes, p: nat): nat
    requires p + 8 <= |b|
  {
    Le4(b, p) + 0x1_0000_0000 * Le4(b, p + 4)
  }

  lemma WordOf2(b: Bytes, p: nat)
    requires p + 2 <= |b|
    ensures Word(b, p, 2) == Le2(b, p)
  {
    assert Word(b, p, 2) == b[p] as nat + 0x100 * Word(b, p + 1, 1);
  }

  lemma WordOf4(b: Bytes, p: nat)
    requires p + 4 <= |b|
    ensures Word(b, p, 4) == Le4(b, p)
  {
    WordOf2(b, p + 2);
    assert Word(b, p, 4) == b[p] as nat + 0x100 * Word(b, p + 1, 3);
    assert Word(b, p + 1, 3) == b[p + 1] as nat + 0x100 * Word(b, p + 2, 2);
  }

  lemma WordOf8(b: Bytes, p: nat)
    requires p + 8 <= |b|
    ensures Word(b, p, 8) == Le8(b, p)
  {
    WordOf4(b, p + 4);
    WordOf2(b, p + 2);
    assert Word(b, p, 8) == b[p] as nat + 0x100 * Word(b, p + 1, 7);
    assert Word(b, p + 1, 7) == b[p + 1] as nat + 0x100 * Word(b, p + 2, 6);
    assert Word(b, p + 2, 6) == b[p + 2] as nat + 0x100 * Word(b, p + 3, 5);
    assert Word(b, p + 3, 5) == b[p + 3] as nat + 0x100 * Word(b, p + 4, 4);
  }

  /** A read inside the file is these numbers, and any other is refused. */
  lemma WordsAre(b: Bytes, p: nat)
    ensures U16(b, p) == if p + 2 <= |b| then Some(Le2(b, p)) else None
    ensures U32(b, p) == if p + 4 <= |b| then Some(Le4(b, p)) else None
    ensures U64(b, p) == if p + 8 <= |b| then Some(Le8(b, p)) else None
  {
    if p + 2 <= |b| { WordOf2(b, p); }
    if p + 4 <= |b| { WordOf4(b, p); }
    if p + 8 <= |b| { WordOf8(b, p); }
  }

  // ----------------------------------------------------------------------------- UTF-8

  predicate Trail(c: Byte) {
    0x80 <= c <= 0xBF
  }

  predicate Three(a: Byte, b: Byte, c: Byte) {
    && Trail(c)
    && ((a == 0xE0 && 0xA0 <= b <= 0xBF) || (a == 0xED && 0x80 <= b <= 0x9F) || (0xE1 <= a <= 0xEF && a != 0xED && Trail(b)))
  }

  predicate Four(a: Byte, b: Byte, c: Byte, d: Byte) {
    && Trail(c) && Trail(d)
    && ((a == 0xF0 && 0x90 <= b <= 0xBF) || (a == 0xF4 && 0x80 <= b <= 0x8F) || (0xF1 <= a <= 0xF3 && Trail(b)))
  }

  /** Well formed by section 4 of RFC 3629: character by character. */
  predicate Utf8(s: Bytes) {
    || s == []
    || (s[0] < 0x80 && Utf8(s[1..]))
    || (|s| >= 2 && 0xC2 <= s[0] <= 0xDF && Trail(s[1]) && Utf8(s[2..]))
    || (|s| >= 3 && Three(s[0], s[1], s[2]) && Utf8(s[3..]))
    || (|s| >= 4 && Four(s[0], s[1], s[2], s[3]) && Utf8(s[4..]))
  }

  function After(e: Expect, s: Bytes): Expect
    decreases |s|
  {
    if s == [] then e else After(Expecting(e, s[0] as nat), s[1..])
  }

  lemma {:induction false} BrokenStays(s: Bytes)
    ensures After(Broken, s) == Broken
    decreases |s|
  {
    if s != [] {
      BrokenStays(s[1..]);
    }
  }

  lemma AfterOne(e: Expect, s: Bytes, n: nat)
    requires n < |s|
    ensures After(e, s[n..]) == After(Expecting(e, s[n] as nat), s[n + 1..])
  {
    assert s[n..][1..] == s[n + 1..] && s[n..][0] == s[n];
  }

  /** A decoder at rest gets to rest again over exactly the well formed texts. */
  lemma {:induction false} DecoderIs(s: Bytes)
    ensures After(Lead, s) == Lead <==> Utf8(s)
    decreases |s|, 1
  {
    if s != [] {
      var one := Expecting(Lead, s[0] as nat);
      assert s[0..] == s;
      AfterOne(Lead, s, 0);
      BrokenStays(s[1..]);
      DecoderIs(s[1..]);
      if |s| >= 2 {
        var two := Expecting(one, s[1] as nat);
        AfterOne(one, s, 1);
        BrokenStays(s[2..]);
        DecoderIs(s[2..]);
        DecoderLong(s, one, two);
      } else {
        assert s[1..] == [];
      }
    }
  }

  lemma {:induction false} DecoderLong(s: Bytes, one: Expect, two: Expect)
    requires |s| >= 2 && one == Expecting(Lead, s[0] as nat) && two == Expecting(one, s[1] as nat)
    ensures two in {Tail1, Tail2} ==> (After(two, s[2..]) == Lead <==>
      || (two == Tail1 && |s| >= 3 && Trail(s[2]) && Utf8(s[3..]))
      || (two == Tail2 && |s| >= 4 && Trail(s[2]) && Trail(s[3]) && Utf8(s[4..])))
    decreases |s|, 0
  {
    if two in {Tail1, Tail2} {
      if |s| == 2 {
        assert s[2..] == [];
      } else {
        var three := Expecting(two, s[2] as nat);
        AfterOne(two, s, 2);
        BrokenStays(s[3..]);
        DecoderIs(s[3..]);
        if |s| == 3 {
          assert s[3..] == [];
        } else {
          AfterOne(three, s, 3);
          BrokenStays(s[4..]);
          DecoderIs(s[4..]);
        }
      }
    }
  }

  lemma {:induction false} AfterMore(e: Expect, s: Bytes, c: Byte)
    ensures After(e, s + [c]) == Expecting(After(e, s), c as nat)
    decreases |s|
  {
    if s == [] {
      assert (s + [c])[1..] == [];
    } else {
      assert (s + [c])[1..] == s[1..] + [c];
      AfterMore(Expecting(e, s[0] as nat), s[1..], c);
    }
  }

  // --------------------------------------------------------------------------- strings

  /** The text from an offset into the string table to the first zero byte, which is in the
      table. */
  predicate StringIs(b: Bytes, strs: Strings, from: nat, s: Name)
    requires strs.at + strs.size <= |b|
  {
    var p := strs.at + from;
    && from + |s| < strs.size && b[p..p + |s|] == s && b[p + |s|] == 0
    && (forall i :: 0 <= i < |s| ==> s[i] != 0) && Utf8(s)
  }

  lemma {:induction false} NameIs(b: Bytes, start: nat, p: nat, end: nat, e: Expect, s: Name)
    requires start <= p <= end <= |b| && e == After(Lead, b[start..p]) && forall i :: start <= i < p ==> b[i] != 0
    ensures NameFrom(b, start, p, end, e) == Ok(s) <==>
      && start + |s| < end && p <= start + |s| && b[start..start + |s|] == s && b[start + |s|] == 0
      && (forall i :: start <= i < start + |s| ==> b[i] != 0) && Utf8(s)
    decreases end - p
  {
    if p < end {
      if b[p] == 0 {
        DecoderIs(b[start..p]);
        if start + |s| > p {
          assert start + |s| < end ==> b[p] == 0;
        }
      } else {
        AfterMore(Lead, b[start..p], b[p]);
        assert b[start..p + 1] == b[start..p] + [b[p]];
        NameIs(b, start, p + 1, end, Expecting(e, b[p] as nat), s);
        if start + |s| == p {
          assert b[start + |s|] != 0;
        }
      }
    }
  }

  lemma StringMeans(b: Bytes, strs: Strings, from: nat, s: Name)
    requires strs.at + strs.size <= |b|
    ensures StringAt(b, strs, from) == Ok(s) <==> StringIs(b, strs, from, s)
  {
    if from <= strs.size {
      var p := strs.at + from;
      assert b[p..p] == [];
      NameIs(b, p, p, strs.at + strs.size, Lead, s);
      if p + |s| <= |b| && b[p..p + |s|] == s {
        assert forall i :: 0 <= i < |s| ==> s[i] == b[p + i];
      }
    }
  }

  // ----------------------------------------------------------------------------- lists

  /** The numbers below `n` that are so, in order. */
  ghost predicate Chosen(n: nat, at: seq<nat>, so: nat -> bool) {
    && (forall i :: 0 <= i < |at| ==> at[i] < n && so(at[i]))
    && (forall i, j :: 0 <= i < j < |at| ==> at[i] < at[j])
    && (forall k: nat :: k < n && so(k) ==> k in at)
  }

  lemma ChosenMore(n: nat, at: seq<nat>, so: nat -> bool, more: seq<nat>)
    requires Chosen(n, at, so) && more == if so(n) then at + [n] else at
    ensures Chosen(n + 1, more, so)
  {
    if so(n) {
      assert more[|at|] == n;
      forall k: nat | k < n + 1 && so(k) ensures k in more {
        if k < n { assert k in at; }
      }
    }
  }

  // --------------------------------------------------------------------------- headers

  /** The program header `k` of a file: they lie one after another, each of the stated size. */
  function HeaderAt(b: Bytes, k: nat): nat
    requires 58 <= |b|
  {
    Le8(b, 32) + Area(k, Le2(b, 54))
  }

  predicate HeaderFits(b: Bytes, k: nat) {
    58 <= |b| && HeaderAt(b, k) + 56 <= |b|
  }

  predicate IsKind(b: Bytes, k: nat, kind: nat) {
    HeaderFits(b, k) && Le4(b, HeaderAt(b, k)) == kind
  }

  ghost function Kinds(b: Bytes, kind: nat): nat -> bool {
    (k: nat) => IsKind(b, k, kind)
  }

  function LoadAt(b: Bytes, k: nat): Load
    requires HeaderFits(b, k)
  {
    Load(Le8(b, HeaderAt(b, k) + 16), Le8(b, HeaderAt(b, k) + 32), Le8(b, HeaderAt(b, k) + 8))
  }

  /** The loadable segments are the headers of type 1, in order, at these places. */
  ghost predicate LoadsUpTo(b: Bytes, n: nat, loads: seq<Load>, at: seq<nat>) {
    && |at| == |loads| && Chosen(n, at, Kinds(b, 1))
    && forall i :: 0 <= i < |at| ==> HeaderFits(b, at[i]) && loads[i] == LoadAt(b, at[i])
  }

  /** The dynamic section is where the last header of type 2 says: an offset and a size. */
  ghost predicate DynamicUpTo(b: Bytes, n: nat, dynamic: Option<(nat, nat)>) {
    match dynamic
    case None => forall k :: 0 <= k < n ==> !IsKind(b, k, 2)
    case Some(d) => exists k :: (
      && 0 <= k < n && IsKind(b, k, 2)
      && d.0 == Le8(b, HeaderAt(b, k) + 8) && d.1 == Le8(b, HeaderAt(b, k) + 32)
      && forall l :: k < l < n ==> !IsKind(b, l, 2))
  }

  ghost predicate InterpUpTo(b: Bytes, n: nat, interp: bool) {
    interp <==> exists k :: 0 <= k < n && IsKind(b, k, 3)
  }

  ghost predicate HeadersUpTo(b: Bytes, n: nat, h: Headers, at: seq<nat>) {
    LoadsUpTo(b, n, h.loads, at) && DynamicUpTo(b, n, h.dynamic) && InterpUpTo(b, n, h.interp)
  }

  lemma SegmentIs(b: Bytes, k: nat)
    requires HeaderFits(b, k)
    ensures var s := SegmentAt(b, HeaderAt(b, k)); s.kind == Le4(b, HeaderAt(b, k)) && s.load == LoadAt(b, k)
  {
    var p := HeaderAt(b, k);
    WordsAre(b, p);
    WordsAre(b, p + 8);
    WordsAre(b, p + 16);
    WordsAre(b, p + 32);
  }

  lemma LoadsMore(b: Bytes, n: nat, loads: seq<Load>, at: seq<nat>, kind: nat, load: Load, more: seq<nat>, all: seq<Load>)
    requires HeaderFits(b, n) && kind == Le4(b, HeaderAt(b, n)) && load == LoadAt(b, n) && LoadsUpTo(b, n, loads, at)
    requires if kind == 1 then more == at + [n] && all == loads + [load] else more == at && all == loads
    ensures LoadsUpTo(b, n + 1, all, more)
  {
    ChosenMore(n, at, Kinds(b, 1), more);
  }

  lemma DynamicMore(b: Bytes, n: nat, h: Headers, s: Segment)
    requires HeaderFits(b, n) && s.kind == Le4(b, HeaderAt(b, n)) && s.load == LoadAt(b, n) && DynamicUpTo(b, n, h.dynamic)
    ensures DynamicUpTo(b, n + 1, AddSegment(h, s).dynamic)
  {
    if s.kind == 2 {
      assert IsKind(b, n, 2);
    }
  }

  lemma InterpMore(b: Bytes, n: nat, h: Headers, s: Segment)
    requires HeaderFits(b, n) && s.kind == Le4(b, HeaderAt(b, n)) && InterpUpTo(b, n, h.interp)
    ensures InterpUpTo(b, n + 1, AddSegment(h, s).interp)
  {
    if s.kind == 3 {
      assert IsKind(b, n, 3);
    }
  }

  lemma HeaderMore(b: Bytes, n: nat, h: Headers, at: seq<nat>, s: Segment, more: seq<nat>)
    requires HeaderFits(b, n) && s == SegmentAt(b, HeaderAt(b, n)) && HeadersUpTo(b, n, h, at)
    requires more == if s.kind == 1 then at + [n] else at
    ensures HeadersUpTo(b, n + 1, AddSegment(h, s), more)
  {
    SegmentIs(b, n);
    LoadsMore(b, n, h.loads, at, s.kind, s.load, more, AddSegment(h, s).loads);
    DynamicMore(b, n, h, s);
    InterpMore(b, n, h, s);
  }

  lemma HeaderNext(b: Bytes, n: nat, start: nat, size: nat, left: nat, h: Headers, at: seq<nat>, r: Headers) returns (next: Headers, more: seq<nat>)
    requires 58 <= |b| && size == Le2(b, 54) >= 56 && start == HeaderAt(b, n) && HeadersUpTo(b, n, h, at)
    requires left > 0 && ReadHeaders(b, start, size, left, h) == Ok(r)
    ensures start + size == HeaderAt(b, n + 1) && HeadersUpTo(b, n + 1, next, more)
    ensures ReadHeaders(b, start + size, size, left - 1, next) == Ok(r)
  {
    var s := SegmentAt(b, start);
    next, more := AddSegment(h, s), if s.kind == 1 then at + [n] else at;
    HeaderMore(b, n, h, at, s, more);
  }

  /** As many headers as the file counts, read from `n` to `m`. */
  lemma {:induction false} HeadersMean(b: Bytes, n: nat, m: nat, start: nat, size: nat, left: nat, h: Headers, at: seq<nat>, r: Headers) returns (more: seq<nat>)
    requires 58 <= |b| && size == Le2(b, 54) >= 56 && m == n + left && start == HeaderAt(b, n) && HeadersUpTo(b, n, h, at)
    requires ReadHeaders(b, start, size, left, h) == Ok(r)
    ensures HeadersUpTo(b, m, r, more)
    decreases left
  {
    more := at;
    if left > 0 {
      var next, one := HeaderNext(b, n, start, size, left, h, at, r);
      more := HeadersMean(b, n + 1, m, start + size, size, left - 1, next, one, r);
    }
  }

  // ------------------------------------------------------------------ the dynamic section

  /** The entries before the first null one, as many as there is room for. */
  ghost predicate TagsAre(b: Bytes, off: nat, size: nat, es: seq<Tagged>) {
    && 16 * |es| <= size && off + size <= |b|
    && (forall k :: 0 <= k < |es| ==> es[k] == Tagged(Le8(b, off + 16 * k), Le8(b, off + 16 * k + 8)) && es[k].tag != 0)
    && (16 * (|es| + 1) <= size ==> Le8(b, off + 16 * |es|) == 0)
  }

  lemma TagsOn(b: Bytes, off: nat, size: nat, rest: seq<Tagged>, es: seq<Tagged>)
    requires size >= 16 && off + size <= |b| && TagsAre(b, off + 16, size - 16, rest)
    requires es == [Tagged(Le8(b, off), Le8(b, off + 8))] + rest && es[0].tag != 0
    ensures TagsAre(b, off, size, es)
  {
    forall k | 0 <= k < |es| ensures es[k] == Tagged(Le8(b, off + 16 * k), Le8(b, off + 16 * k + 8)) && es[k].tag != 0 {
      if k > 0 {
        assert es[k] == rest[k - 1] && off + 16 + 16 * (k - 1) == off + 16 * k;
      }
    }
    assert off + 16 + 16 * |rest| == off + 16 * |es|;
  }

  lemma EntriesOne(b: Bytes, off: nat, n: nat, left: nat)
    requires n == left + 1 && off + 16 * n <= |b|
    ensures Entries(b, off, n) == if Le8(b, off) == 0 then [] else [Tagged(Le8(b, off), Le8(b, off + 8))] + Entries(b, off + 16, left)
  {
    WordsAre(b, off);
    WordsAre(b, off + 8);
  }

  lemma {:induction false} EntriesMean(b: Bytes, off: nat, n: nat, size: nat)
    requires size == 16 * n && off + size <= |b|
    ensures TagsAre(b, off, size, Entries(b, off, n))
    decreases n
  {
    if n > 0 {
      EntriesOne(b, off, n, n - 1);
      if Le8(b, off) != 0 {
        EntriesMean(b, off + 16, n - 1, size - 16);
        TagsOn(b, off, size, Entries(b, off + 16, n - 1), Entries(b, off, n));
      }
    }
  }

  /** The last entry of a tag. */
  ghost predicate LastTag(es: seq<Tagged>, tag: nat, v: nat) {
    exists j :: 0 <= j < |es| && es[j] == Tagged(tag, v) && forall k :: j < k < |es| ==> es[k].tag != tag
  }

  predicate NoTag(es: seq<Tagged>, tag: nat) {
    forall j :: 0 <= j < |es| ==> es[j].tag != tag
  }

  lemma {:induction false} LastMeans(es: seq<Tagged>, tag: nat)
    ensures match Last(es, tag) case Some(v) => LastTag(es, tag, v) case None => NoTag(es, tag)
    decreases |es|
  {
    if es != [] {
      var n := |es| - 1;
      if es[n].tag == tag {
        assert es[n] == Tagged(tag, es[n].val);
      } else {
        var front := es[..n];
        LastMeans(front, tag);
        if Last(front, tag).Some? {
          var v := Last(front, tag).value;
          var j :| 0 <= j < |front| && front[j] == Tagged(tag, v) && forall k :: j < k < |front| ==> front[k].tag != tag;
          assert es[j] == front[j];
          forall k | j < k < |es| ensures es[k].tag != tag {
            if k < n { assert es[k] == front[k]; }
          }
        } else {
          assert forall k :: 0 <= k < n ==> es[k] == front[k];
        }
      }
    }
  }

  predicate HasTag(es: seq<Tagged>, tag: nat, k: nat) {
    k < |es| && es[k].tag == tag
  }

  ghost function Tags(es: seq<Tagged>, tag: nat): nat -> bool {
    (k: nat) => HasTag(es, tag, k)
  }

  /** All entries of a tag, in order. */
  ghost predicate AllOf(es: seq<Tagged>, tag: nat, vs: seq<nat>, at: seq<nat>) {
    ValuesUpTo(es, tag, |es|, vs, at)
  }

  /** The values of the entries of a tag before `n`. */
  ghost predicate ValuesUpTo(es: seq<Tagged>, tag: nat, n: nat, vs: seq<nat>, at: seq<nat>) {
    && |at| == |vs| && Chosen(n, at, Tags(es, tag))
    && forall i :: 0 <= i < |at| ==> at[i] < |es| && es[at[i]].val == vs[i]
  }

  lemma ValuesMore(es: seq<Tagged>, tag: nat, n: nat, vs: seq<nat>, at: seq<nat>, all: seq<nat>, more: seq<nat>)
    requires n < |es| && ValuesUpTo(es, tag, n, vs, at)
    requires if es[n].tag == tag then all == vs + [es[n].val] && more == at + [n] else all == vs && more == at
    ensures ValuesUpTo(es, tag, n + 1, all, more)
  {
    ChosenMore(n, at, Tags(es, tag), more);
  }

  lemma EveryNext(es: seq<Tagged>, tag: nat, n: nat)
    requires n < |es|
    ensures Every(es[..n + 1], tag) == Every(es[..n], tag) + if es[n].tag == tag then [es[n].val] else []
  {
    assert es[..n + 1][..n] == es[..n];
  }

  lemma {:induction false} EveryUpTo(es: seq<Tagged>, tag: nat, n: nat, vs: seq<nat>) returns (at: seq<nat>)
    requires n <= |es| && vs == Every(es[..n], tag)
    ensures ValuesUpTo(es, tag, n, vs, at)
    decreases n
  {
    if n == 0 {
      at := [];
    } else {
      var left: nat := n - 1;
      var was := Every(es[..left], tag);
      EveryNext(es, tag, left);
      at := EveryUpTo(es, tag, left, was);
      var more := if es[left].tag == tag then at + [left] else at;
      ValuesMore(es, tag, left, was, at, vs, more);
      at := more;
    }
  }

  lemma EveryMeans(es: seq<Tagged>, tag: nat) returns (at: seq<nat>)
    ensures AllOf(es, tag, Every(es, tag), at)
  {
    assert es[..|es|] == es;
    at := EveryUpTo(es, tag, |es|, Every(es, tag));
  }

  /** The first segment an address is in says where in the file it is. */
  ghost predicate Where(loads: seq<Load>, addr: nat, off: nat) {
    exists i :: 0 <= i < |loads| && Holds(loads[i], addr) && off == loads[i].offset + (addr - loads[i].vaddr)
      && forall j :: 0 <= j < i ==> !Holds(loads[j], addr)
  }

  predicate Holds(l: Load, addr: nat) {
    l.vaddr <= addr < l.vaddr + l.filesz
  }

  lemma {:induction false} OffsetMeans(loads: seq<Load>, addr: nat, off: nat)
    requires OffsetOf(loads, addr) == Ok(off)
    ensures Where(loads, addr, off) && off < 0x1_0000_0000_0000_0000
    decreases |loads|
  {
    if !Holds(loads[0], addr) {
      var rest := loads[1..];
      OffsetMeans(rest, addr, off);
      var i :| 0 <= i < |rest| && Holds(rest[i], addr) && off == rest[i].offset + (addr - rest[i].vaddr)
        && forall j :: 0 <= j < i ==> !Holds(rest[j], addr);
      assert loads[i + 1] == rest[i];
      forall j | 0 <= j < i + 1 ensures !Holds(loads[j], addr) {
        if j > 0 { assert loads[j] == rest[j - 1]; }
      }
    }
  }
}
