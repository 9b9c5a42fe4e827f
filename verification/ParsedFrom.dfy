/** Whatever a file spells, the parser answers with: it refuses no file that spells an answer. */
module ParsedFrom {
  import opened Paths
  import opened Disk
  import opened Elf
  import opened ElfMeaning
  import opened SymbolMeaning
  import opened ParsedMeaning
  import opened ParsedOnce
  import GnuHash

  // ---------------------------------------------------------------- tags and addresses

  lemma TagIs(es: seq<Tagged>, tag: nat, v: nat)
    ensures Last(es, tag) == Some(v) <==> LastTag(es, tag, v)
    ensures Last(es, tag) == None <==> NoTag(es, tag)
  {
    LastMeans(es, tag);
    if Last(es, tag).Some? && LastTag(es, tag, v) {
      LastTagOnce(es, tag, v, Last(es, tag).value);
    }
  }

  lemma TagOrIs(es: seq<Tagged>, tag: nat, none: nat, v: nat)
    requires TagOr(es, tag, none, v)
    ensures LastOr(es, tag, none) == v
  {
    TagIs(es, tag, v);
  }

  lemma {:induction false} WhereIs(loads: seq<Load>, addr: nat, off: nat)
    requires Where(loads, addr, off) && off < 0x1_0000_0000_0000_0000
    ensures OffsetOf(loads, addr) == Ok(off)
    decreases |loads|
  {
    if !ElfMeaning.Holds(loads[0], addr) {
      var rest := loads[1..];
      var i :| 0 <= i < |loads| && ElfMeaning.Holds(loads[i], addr) && off == loads[i].offset + (addr - loads[i].vaddr)
        && forall l :: 0 <= l < i ==> !ElfMeaning.Holds(loads[l], addr);
      assert rest[i - 1] == loads[i] && forall l :: 0 <= l < i - 1 ==> rest[l] == loads[l + 1];
      WhereIs(rest, addr, off);
    }
  }

  lemma PointsIs(loads: seq<Load>, es: seq<Tagged>, tag: nat, off: nat)
    requires Points(loads, es, tag, off) && off < 0x1_0000_0000_0000_0000
    ensures Last(es, tag).Some? && OffsetOf(loads, Last(es, tag).value) == Ok(off)
  {
    var addr: nat :| LastTag(es, tag, addr) && Where(loads, addr, off);
    TagIs(es, tag, addr);
    WhereIs(loads, addr, off);
  }

  // ------------------------------------------------------------------------ the headers

  lemma {:induction false} HeadersGo(b: Bytes, n: nat, m: nat, start: nat, size: nat, left: nat, h: Headers)
    requires 58 <= |b| < LIMIT && size == Le2(b, 54) >= 56 && m == n + left && start == HeaderAt(b, n)
    requires forall k: nat :: n <= k < m ==> HeaderWhole(b, k)
    ensures ReadHeaders(b, start, size, left, h).Ok?
    decreases left
  {
    if left > 0 {
      assert HeaderWhole(b, n);
      assert HeaderAt(b, n + 1) == start + size;
      HeadersGo(b, n + 1, m, start + size, size, left - 1, AddSegment(h, SegmentAt(b, start)));
    }
  }

  // ----------------------------------------------------------------------- the versions

  /** Reading a first record and what follows it is reading the chain. */
  ghost predicate ChainsBack(b: Bytes, f: Follows, room: nat, gap: nat, carries: Carries)
    requires gap + 4 <= room
  {
    && (forall t: nat :: f(t, 0) == Ok([]))
    && forall t: nat, n: nat, left: nat, vs, mine, rest :: n == left + 1 && OneMore(b, f, room, gap, carries, t, left, vs, mine, rest) ==> f(t, n) == Ok(vs)
  }

  lemma LinkedTail(b: Bytes, t: nat, num: nat, room: nat, gap: nat, at: seq<nat>, rest: seq<nat>)
    requires gap + 4 <= room && Linked(b, t, num, room, gap, at) && |at| > 1 && rest == at[1..]
    ensures t + room <= |b| && Linked(b, t + Le4(b, t + gap), num - 1, room, gap, rest)
  {
    assert Next(b, room, gap, at[0], at[1]);
    forall k, l | 0 <= k < |rest| && l == k + 1 && l < |rest| ensures Next(b, room, gap, rest[k], rest[l]) {
      assert rest[k] == at[k + 1] && rest[l] == at[l + 1];
    }
    assert rest[|rest| - 1] == at[|at| - 1];
  }

  lemma {:induction false} ChainBack(b: Bytes, f: Follows, room: nat, gap: nat, carries: Carries, t: nat, num: nat, at: seq<nat>, each: seq<seq<Version>>, vs: seq<Version>)
    requires gap + 4 <= room && ChainsBack(b, f, room, gap, carries) && Carried(b, t, num, room, gap, carries, at, each, vs)
    ensures f(t, num) == Ok(vs)
    decreases num
  {
    if num > 0 {
      var left: nat := num - 1;
      var mine, rest := each[0], Joined(each[1..]);
      LinkThere(b, t, num, room, gap, at, 0);
      if |at| > 1 {
        LinkedTail(b, t, num, room, gap, at, at[1..]);
        ChainBack(b, f, room, gap, carries, t + Le4(b, t + gap), left, at[1..], each[1..], rest);
      } else {
        assert EndsAt(b, room, gap, t, num == 1);
      }
      assert OneMore(b, f, room, gap, carries, t, left, vs, mine, rest);
    }
  }

  lemma VerdefNameIs(b: Bytes, strs: Strings, t: nat, mine: seq<Version>) returns (r: Verdef)
    requires strs.at + strs.size <= |b| && DefinedAt(b, strs, t, mine)
    ensures VerdefAt(b, t) == Some(r) && r.next == Le4(b, t + 16) && VerdefName(b, strs, t, r) == Ok(mine)
  {
    VerdefWords(b, t);
    r := VerdefAt(b, t).value;
    if !r.base {
      WordsAre(b, t + r.aux);
      StringMeans(b, strs, Le4(b, t + r.aux), mine[0].name);
      assert mine == [Version(r.ndx, mine[0].name, true)];
    }
  }

  lemma DefinesBackOne(b: Bytes, strs: Strings, t: nat, n: nat, left: nat, next: nat, vs: seq<Version>, mine: seq<Version>, rest: seq<Version>)
    requires strs.at + strs.size <= |b| && n == left + 1 && DefinedAt(b, strs, t, mine) && next == Le4(b, t + 16)
    requires vs == mine + rest && if next == 0 then rest == [] else Verdefs(b, strs, t + next, left) == Ok(rest)
    ensures Verdefs(b, strs, t, n) == Ok(vs)
  {
    var r := VerdefNameIs(b, strs, t, mine);
    VerdefsFirst(b, strs, t, n, left, r, mine, Ok(rest));
    assert next == 0 ==> vs == mine;
  }

  lemma VerdefsFirst(b: Bytes, strs: Strings, t: nat, n: nat, left: nat, r: Verdef, mine: seq<Version>, rest: Result<seq<Version>>)
    requires strs.at + strs.size <= |b| && n == left + 1 && VerdefAt(b, t) == Some(r) && VerdefName(b, strs, t, r) == Ok(mine)
    requires r.next != 0 ==> rest == Verdefs(b, strs, t + r.next, left)
    ensures Verdefs(b, strs, t, n) == if r.next == 0 then Ok(mine) else Onto(mine, rest)
  {
  }

  lemma DefinesChains(b: Bytes, strs: Strings)
    requires strs.at + strs.size <= |b|
    ensures ChainsBack(b, ReadDefined(b, strs), 20, 16, Definitions(b, strs))
  {
    var f, carries := ReadDefined(b, strs), Definitions(b, strs);
    forall t: nat, n: nat, left: nat, vs: seq<Version>, mine: seq<Version>, rest: seq<Version> |
      n == left + 1 && OneMore(b, f, 20, 16, carries, t, left, vs, mine, rest) ensures f(t, n) == Ok(vs)
    {
      DefinesBackOne(b, strs, t, n, left, Le4(b, t + 16), vs, mine, rest);
    }
  }

  lemma DefinesBack(b: Bytes, strs: Strings, t: nat, num: nat, vs: seq<Version>)
    requires strs.at + strs.size <= |b| && DefinedBy(b, strs, t, num, vs)
    ensures Verdefs(b, strs, t, num) == Ok(vs)
  {
    var at, each :| Carried(b, t, num, 20, 16, Definitions(b, strs), at, each, vs);
    var f, carries := ReadDefined(b, strs), Definitions(b, strs);
    DefinesChains(b, strs);
    ChainBack(b, f, 20, 16, carries, t, num, at, each, vs);
  }

  lemma AsksBackOne(b: Bytes, strs: Strings, a: nat, n: nat, left: nat, next: nat, vs: seq<Version>, mine: seq<Version>, rest: seq<Version>)
    requires strs.at + strs.size <= |b| && n == left + 1 && AskedAt(b, strs, a, mine) && next == Le4(b, a + 12)
    requires vs == mine + rest && if next == 0 then rest == [] else Vernauxs(b, strs, a + next, left) == Ok(rest)
    ensures Vernauxs(b, strs, a, n) == Ok(vs)
  {
    VernauxWords(b, a);
    var name := mine[0].name;
    StringMeans(b, strs, Le4(b, a + 8), name);
    assert mine == [Version(Le2(b, a + 6), name, false)];
    VernauxsFirst(b, strs, a, n, left, VernauxAt(b, a).value, name, Ok(rest));
    assert next == 0 ==> vs == mine;
  }

  lemma VernauxsFirst(b: Bytes, strs: Strings, a: nat, n: nat, left: nat, r: Vernaux, name: Name, rest: Result<seq<Version>>)
    requires strs.at + strs.size <= |b| && n == left + 1 && VernauxAt(b, a) == Some(r) && StringAt(b, strs, r.name) == Ok(name)
    requires r.next != 0 ==> rest == Vernauxs(b, strs, a + r.next, left)
    ensures Vernauxs(b, strs, a, n) ==
      var mine := [Version(r.other, name, false)]; if r.next == 0 then Ok(mine) else Onto(mine, rest)
  {
  }

  lemma AsksChains(b: Bytes, strs: Strings)
    requires strs.at + strs.size <= |b|
    ensures ChainsBack(b, ReadAsked(b, strs), 16, 12, Askings(b, strs))
  {
    var f, carries := ReadAsked(b, strs), Askings(b, strs);
    forall t: nat, n: nat, left: nat, vs: seq<Version>, mine: seq<Version>, rest: seq<Version> |
      n == left + 1 && OneMore(b, f, 16, 12, carries, t, left, vs, mine, rest) ensures f(t, n) == Ok(vs)
    {
      AsksBackOne(b, strs, t, n, left, Le4(b, t + 12), vs, mine, rest);
    }
  }

  lemma AsksBack(b: Bytes, strs: Strings, a: nat, cnt: nat, at: seq<nat>, each: seq<seq<Version>>, vs: seq<Version>)
    requires strs.at + strs.size <= |b| && Carried(b, a, cnt, 16, 12, Askings(b, strs), at, each, vs)
    ensures Vernauxs(b, strs, a, cnt) == Ok(vs)
  {
    var f, carries := ReadAsked(b, strs), Askings(b, strs);
    AsksChains(b, strs);
    ChainBack(b, f, 16, 12, carries, a, cnt, at, each, vs);
  }

  lemma VerneedIs(b: Bytes, strs: Strings, t: nat, mine: seq<Version>) returns (r: Verneed)
    requires strs.at + strs.size <= |b| && NeededAt(b, strs, t, mine)
    ensures VerneedAt(b, t) == Some(r) && r.next == Le4(b, t + 12) && Vernauxs(b, strs, t + r.aux, r.cnt) == Ok(mine)
  {
    VerneedWords(b, t);
    r := Verneed(Le2(b, t + 2), Le4(b, t + 8), Le4(b, t + 12));
    var at, each :| NeededBy(b, strs, t, at, each, mine);
    AsksBack(b, strs, t + r.aux, r.cnt, at, each, mine);
  }

  lemma NeedsBackOne(b: Bytes, strs: Strings, t: nat, n: nat, left: nat, next: nat, vs: seq<Version>, mine: seq<Version>, rest: seq<Version>)
    requires strs.at + strs.size <= |b| && n == left + 1 && NeededAt(b, strs, t, mine) && next == Le4(b, t + 12)
    requires vs == mine + rest && if next == 0 then rest == [] else Verneeds(b, strs, t + next, left) == Ok(rest)
    ensures Verneeds(b, strs, t, n) == Ok(vs)
  {
    var r := VerneedIs(b, strs, t, mine);
    VerneedsJoin(b, strs, t, n, left, r, mine, rest, vs);
  }

  lemma VerneedsJoin(b: Bytes, strs: Strings, t: nat, n: nat, left: nat, r: Verneed, mine: seq<Version>, rest: seq<Version>, vs: seq<Version>)
    requires strs.at + strs.size <= |b| && n == left + 1 && VerneedAt(b, t) == Some(r) && Vernauxs(b, strs, t + r.aux, r.cnt) == Ok(mine)
    requires vs == mine + rest && if r.next == 0 then rest == [] else Verneeds(b, strs, t + r.next, left) == Ok(rest)
    ensures Verneeds(b, strs, t, n) == Ok(vs)
  {
    VerneedsFirst(b, strs, t, n, left, r, mine, Ok(rest));
    assert r.next == 0 ==> vs == mine;
  }

  lemma VerneedsFirst(b: Bytes, strs: Strings, t: nat, n: nat, left: nat, r: Verneed, mine: seq<Version>, rest: Result<seq<Version>>)
    requires strs.at + strs.size <= |b| && n == left + 1 && VerneedAt(b, t) == Some(r) && Vernauxs(b, strs, t + r.aux, r.cnt) == Ok(mine)
    requires r.next != 0 ==> rest == Verneeds(b, strs, t + r.next, left)
    ensures Verneeds(b, strs, t, n) == if r.next == 0 then Ok(mine) else Onto(mine, rest)
  {
  }

  lemma NeedsChains(b: Bytes, strs: Strings)
    requires strs.at + strs.size <= |b|
    ensures ChainsBack(b, ReadNeeded(b, strs), 16, 12, Needings(b, strs))
  {
    var f, carries := ReadNeeded(b, strs), Needings(b, strs);
    forall t: nat, n: nat, left: nat, vs: seq<Version>, mine: seq<Version>, rest: seq<Version> |
      n == left + 1 && OneMore(b, f, 16, 12, carries, t, left, vs, mine, rest) ensures f(t, n) == Ok(vs)
    {
      NeedsBackOne(b, strs, t, n, left, Le4(b, t + 12), vs, mine, rest);
    }
  }

  lemma NeedsBack(b: Bytes, strs: Strings, t: nat, num: nat, vs: seq<Version>)
    requires strs.at + strs.size <= |b| && NeededFrom(b, strs, t, num, vs)
    ensures Verneeds(b, strs, t, num) == Ok(vs)
  {
    var at, each :| Carried(b, t, num, 16, 12, Needings(b, strs), at, each, vs);
    var f, carries := ReadNeeded(b, strs), Needings(b, strs);
    NeedsChains(b, strs);
    ChainBack(b, f, 16, 12, carries, t, num, at, each, vs);
  }

  lemma VersionsBack(b: Bytes, loads: seq<Load>, strs: Strings, es: seq<Tagged>, names: seq<Version>)
    requires |b| < LIMIT && strs.at + strs.size <= |b| && VersionsAre(b, loads, strs, es, names)
    ensures Versions(b, loads, strs, es) == Ok(names)
  {
    var mine, asked :| DefinedAre(b, loads, strs, es, mine) && NeededAre(b, loads, strs, es, asked) && names == mine + asked;
    DefinedBack(b, loads, strs, es, mine);
    NeededBack(b, loads, strs, es, asked);
  }

  lemma DefinedBack(b: Bytes, loads: seq<Load>, strs: Strings, es: seq<Tagged>, vs: seq<Version>)
    requires |b| < LIMIT && strs.at + strs.size <= |b| && DefinedAre(b, loads, strs, es, vs)
    ensures VerdefTable(b, loads, strs, es) == Ok(vs)
  {
    TagIs(es, DT_VERDEF, 0);
    if !NoTag(es, DT_VERDEF) {
      var t: nat, n: nat :| Points(loads, es, 0x6fff_fffc, t) && t <= |b| && TagOr(es, 0x6fff_fffd, 0, n) && DefinedBy(b, strs, t, n, vs);
      PointsIs(loads, es, DT_VERDEF, t);
      TagOrIs(es, DT_VERDEFNUM, 0, n);
      DefinesBack(b, strs, t, n, vs);
    }
  }

  lemma NeededBack(b: Bytes, loads: seq<Load>, strs: Strings, es: seq<Tagged>, vs: seq<Version>)
    requires |b| < LIMIT && strs.at + strs.size <= |b| && NeededAre(b, loads, strs, es, vs)
    ensures VerneedTable(b, loads, strs, es) == Ok(vs)
  {
    TagIs(es, DT_VERNEED, 0);
    if !NoTag(es, DT_VERNEED) {
      var t: nat, n: nat :| Points(loads, es, 0x6fff_fffe, t) && t <= |b| && TagOr(es, 0x6fff_ffff, 0, n) && NeededFrom(b, strs, t, n, vs);
      PointsIs(loads, es, DT_VERNEED, t);
      TagOrIs(es, DT_VERNEEDNUM, 0, n);
      NeedsBack(b, strs, t, n, vs);
    }
  }

  // ------------------------------------------------------------------ how many symbols

  lemma {:induction false} OddIs(b: Bytes, at: nat, i: nat, end: nat)
    requires FirstOdd(b, at, i, end)
    ensures ChainEnd(b, at, i) == Some(end)
    decreases end - i
  {
    WordsAre(b, at + 4 * i);
    if i < end {
      assert Nth(b, at, i) % 2 == 0;
      OddIs(b, at, i + 1, end);
    } else {
      assert Nth(b, at, i) % 2 == 1;
    }
  }

  lemma ChainsIs(b: Bytes, g: GnuHeader, last: nat, n: nat)
    requires CountsFrom(b, g.buckets + 4 * g.nbuckets, g.symoffset, last, n)
    ensures GnuChains(b, g, last) == Ok(n)
  {
    if last >= g.symoffset {
      OddIs(b, g.buckets + 4 * g.nbuckets, last - g.symoffset, n - g.symoffset - 1);
    }
  }

  lemma LargestIs(b: Bytes, at: nat, n: nat, last: nat)
    requires n > 0 && at + 4 * n <= |b| && Largest(b, at, n, last)
    ensures LastBucket(b, at, n) == last
  {
    LargestMeans(b, at, n);
    LargestOnce(b, at, n, last, LastBucket(b, at, n));
  }

  lemma GnuIs(b: Bytes, t: nat, n: nat)
    requires CountsGnu(b, t, n)
    ensures GnuCount(b, t) == Ok(n)
  {
    HeaderWords(b, t);
    var g := GnuHeaderAt(b, t).value;
    var last: nat :| LargestOr(b, g.buckets, g.nbuckets, last) && CountsFrom(b, g.buckets + 4 * g.nbuckets, g.symoffset, last, n);
    ChainsIs(b, g, last, n);
    if g.nbuckets > 0 {
      LargestIs(b, g.buckets, g.nbuckets, last);
    }
  }

  lemma CountIs(b: Bytes, loads: seq<Load>, es: seq<Tagged>, n: nat)
    requires |b| < LIMIT && Counts(b, loads, es, n)
    ensures Count(b, loads, Last(es, DT_HASH), Last(es, DT_GNU_HASH)) == Ok(n)
  {
    TagIs(es, DT_GNU_HASH, 0);
    if NoTag(es, DT_GNU_HASH) {
      var t: nat :| Points(loads, es, 4, t) && t + 8 <= |b| && n == Le4(b, t + 4);
      PointsIs(loads, es, DT_HASH, t);
      WordsAre(b, t + 4);
    } else {
      var t: nat :| Points(loads, es, 0x6fff_fef5, t) && CountsGnu(b, t, n);
      PointsIs(loads, es, DT_GNU_HASH, t);
      GnuIs(b, t, n);
    }
  }

  lemma RoomIs(start: nat, entsize: nat, end: nat, n: nat)
    requires entsize > 0 && if end <= start then n == 0 else start + Area(n, entsize) <= end < start + Area(n, entsize) + entsize
    ensures Room(start, entsize, Some(end)) == n
  {
    var m := Room(start, entsize, Some(end));
    RoomMeans(start, entsize, end, m);
    if end > start {
      QuotientOnce(start, entsize, end, m, n);
      QuotientOnce(start, entsize, end, n, m);
    }
  }

  /** The symbols' end can be found, and the room before it is that. */
  lemma RoomsIs(loads: seq<Load>, es: seq<Tagged>, start: nat, entsize: nat, n: nat)
    requires entsize > 0 && Last(es, DT_SYMTAB).Some? && Rooms(loads, es, start, entsize, n)
    ensures SymbolsEnd(loads, es).Ok? && Room(start, entsize, SymbolsEnd(loads, es).value) == n
  {
    var s := Last(es, DT_SYMTAB).value;
    TagIs(es, DT_SYMTAB, s);
    NearestMeans(es, s);
    var near := LeastAbove(Neighbours(es), s);
    if near.Some? {
      var z: nat, a: nat :| LastTag(es, 6, z) && Nearest(es, z, a) && RoomsBefore(loads, a, start, entsize, n);
      LastTagOnce(es, 6, s, z);
      NearestOnce(es, s, a, near.value);
      var end: nat :| Where(loads, a, end) && end < LIMIT
        && if end <= start then n == 0 else start + Area(n, entsize) <= end < start + Area(n, entsize) + entsize;
      WhereIs(loads, a, end);
      RoomIs(start, entsize, end, n);
    }
  }

  // ------------------------------------------------------------------------ the symbols

  lemma SpelledIs(b: Bytes, strs: Strings, names: seq<Version>, t: Table, i: nat, sym: Sym)
    requires strs.at + strs.size <= |b| && Spelled(b, strs, names, t, i, sym) && Le4(b, EntryAt(t, i)) != 0
    ensures SymbolAt(b, strs, names, t, i) == Ok(Some(sym))
  {
    var e := EntryAt(t, i);
    WordsAre(b, e);
    WordsAre(b, e + 16);
    StringMeans(b, strs, Le4(b, e), sym.name);
    if t.versym.Some? {
      VersymIs(b, names, t.versym.value + 2 * i, sym);
    }
  }

  lemma VersymIs(b: Bytes, names: seq<Version>, p: nat, sym: Sym)
    requires p + 2 <= |b| && VersionIs(names, Le2(b, p), sym.version, sym.isDefault)
    ensures U16(b, p).Some? && VersionOf(names, U16(b, p).value) == (sym.version, sym.isDefault)
  {
    WordsAre(b, p);
    var raw := Le2(b, p);
    VersionMeans(names, raw);
    VersionOnce(names, raw, sym.version, sym.isDefault, VersionOf(names, raw).0, VersionOf(names, raw).1);
  }

  /** Every entry of a table whose sides are spelled can be read. */
  lemma EntryReads(b: Bytes, strs: Strings, names: seq<Version>, t: Table, n: nat, undef: bool, syms: seq<Sym>, at: seq<nat>, i: nat)
    requires SideSpells(b, strs, names, t, n, undef, syms, at) && i < n && StandsOn(b, EntryAt(t, i), undef)
    ensures SymbolAt(b, strs, names, t, i).Ok?
  {
    assert Standing(b, t, undef)(i);
    var k :| 0 <= k < |at| && at[k] == i;
    SpelledIs(b, strs, names, t, i, syms[k]);
  }

  lemma UnnamedReads(b: Bytes, strs: Strings, names: seq<Version>, t: Table, i: nat)
    requires strs.at + strs.size <= |b| && EntryAt(t, i) + 24 <= |b| && Le4(b, EntryAt(t, i)) == 0
    ensures SymbolAt(b, strs, names, t, i).Ok?
  {
    WordsAre(b, EntryAt(t, i));
  }

  lemma {:induction false} AllRead(b: Bytes, strs: Strings, names: seq<Version>, t: Table, n: nat)
    requires Fits(b, strs, t, n)
    requires forall i: nat :: i < n && EntryAt(t, i) + 24 <= |b| ==> SymbolAt(b, strs, names, t, i).Ok?
    ensures SymbolsUpTo(b, strs, names, t, n).Ok?
    decreases n
  {
    if n > 0 {
      EntryFits(b, strs, t, n - 1, n);
      AllRead(b, strs, names, t, n - 1);
    }
  }

  lemma SidesRead(b: Bytes, strs: Strings, names: seq<Version>, t: Table, n: nat, elf: Elf)
    requires Fits(b, strs, t, n) && SidesAre(b, strs, names, t, n, elf)
    ensures SymbolsUpTo(b, strs, names, t, n).Ok?
  {
    var into: seq<nat>, out: seq<nat> :|
      SideSpells(b, strs, names, t, n, true, elf.undefined, into) && SideSpells(b, strs, names, t, n, false, elf.exports, out);
    forall i: nat | i < n && EntryAt(t, i) + 24 <= |b| ensures SymbolAt(b, strs, names, t, i).Ok? {
      var e := EntryAt(t, i);
      if Le4(b, e) == 0 {
        UnnamedReads(b, strs, names, t, i);
      } else if b[e + 6] == 0 && b[e + 7] == 0 {
        EntryReads(b, strs, names, t, n, true, elf.undefined, into, i);
      } else {
        EntryReads(b, strs, names, t, n, false, elf.exports, out, i);
      }
    }
    AllRead(b, strs, names, t, n);
  }

  /** A table in its place is read from there, as far as it is said to go. */
  lemma TableRead(b: Bytes, loads: seq<Load>, strs: Strings, names: seq<Version>, es: seq<Tagged>, t: Table, n: nat)
    requires |b| < LIMIT && strs.at + strs.size <= |b| && TableIs(b, loads, es, t) && SizeIs(b, loads, es, t, n)
    ensures SymbolsEnd(loads, es).Ok? && Fits(b, strs, t, n)
    ensures Symbols(b, loads, strs, names, es, SymbolsEnd(loads, es).value) == SymbolsUpTo(b, strs, names, t, n)
  {
    PointsIs(loads, es, DT_SYMTAB, t.start);
    TagOrIs(es, DT_SYMENT, 24, t.entsize);
    SizeRead(b, loads, es, t, n);
    TagIs(es, DT_VERSYM, 0);
    if t.versym.Some? {
      PointsIs(loads, es, DT_VERSYM, t.versym.value);
    }
    TablePlaced(b, loads, strs, names, es, SymbolsEnd(loads, es).value, t, n);
  }

  lemma SizeRead(b: Bytes, loads: seq<Load>, es: seq<Tagged>, t: Table, n: nat)
    requires |b| < LIMIT && Last(es, DT_SYMTAB).Some? && t.entsize > 0 && SizeIs(b, loads, es, t, n)
    ensures SymbolsEnd(loads, es).Ok? && SymbolCount(b, loads, es, t.start, t.entsize, SymbolsEnd(loads, es).value) == Ok(n)
  {
    var c: nat, r: nat :| Counts(b, loads, es, c) && Rooms(loads, es, t.start, t.entsize, r) && n == if c >= r then c else r;
    CountIs(b, loads, es, c);
    RoomsIs(loads, es, t.start, t.entsize, r);
  }

  lemma TablePlaced(b: Bytes, loads: seq<Load>, strs: Strings, names: seq<Version>, es: seq<Tagged>, end: Option<nat>, t: Table, n: nat)
    requires |b| < LIMIT && Fits(b, strs, t, n) && LastOr(es, DT_SYMENT, 24) == t.entsize
    requires Last(es, DT_SYMTAB).Some? && OffsetOf(loads, Last(es, DT_SYMTAB).value) == Ok(t.start)
    requires SymbolCount(b, loads, es, t.start, t.entsize, end) == Ok(n)
    requires if t.versym.None? then Last(es, DT_VERSYM) == None
             else t.versym.value <= |b| && Last(es, DT_VERSYM).Some? && OffsetOf(loads, Last(es, DT_VERSYM).value) == Ok(t.versym.value)
    ensures Symbols(b, loads, strs, names, es, end) == SymbolsUpTo(b, strs, names, t, n)
  {
    assert t == Table(t.start, t.entsize, t.versym);
    assert t.versym.Some? ==> t.versym == Some(t.versym.value);
  }

  lemma SymbolsRead(b: Bytes, loads: seq<Load>, strs: Strings, names: seq<Version>, es: seq<Tagged>, elf: Elf)
    requires |b| < LIMIT && strs.at + strs.size <= |b| && SymbolsAre(b, loads, strs, es, names, elf)
    ensures SymbolsEnd(loads, es).Ok? && Symbols(b, loads, strs, names, es, SymbolsEnd(loads, es).value).Ok?
  {
    TagIs(es, DT_SYMTAB, 0);
    if !NoTag(es, DT_SYMTAB) {
      var t: Table, n: nat :| TableIs(b, loads, es, t) && SizeIs(b, loads, es, t, n) && SidesAre(b, strs, names, t, n, elf);
      TableRead(b, loads, strs, names, es, t, n);
      SidesRead(b, strs, names, t, n, elf);
    }
  }

  // ------------------------------------------------------------------------- the answer

  lemma StringRead(b: Bytes, strs: Strings, es: seq<Tagged>, tag: nat, s: Option<Name>)
    requires strs.at + strs.size <= |b| && StringOf(b, strs, es, tag, s)
    ensures OptionalString(b, strs, Last(es, tag)).Ok?
  {
    TagIs(es, tag, 0);
    if s.Some? {
      var v: nat :| LastTag(es, tag, v) && StringIs(b, strs, v, s.value);
      TagIs(es, tag, v);
      StringMeans(b, strs, v, s.value);
    }
  }

  lemma {:induction false} EachRead(b: Bytes, strs: Strings, vs: seq<nat>, names: seq<Name>)
    requires strs.at + strs.size <= |b| && EachString(b, strs, vs, names)
    ensures StringsAt(b, strs, vs).Ok?
    decreases |vs|
  {
    if vs != [] {
      StringMeans(b, strs, vs[0], names[0]);
      EachRead(b, strs, vs[1..], names[1..]);
    }
  }

  lemma StringsRead(b: Bytes, strs: Strings, es: seq<Tagged>, tag: nat, names: seq<Name>)
    requires strs.at + strs.size <= |b| && StringsOf(b, strs, es, tag, names)
    ensures StringsAt(b, strs, Every(es, tag)).Ok?
  {
    var vs, at :| AllOf(es, tag, vs, at) && EachString(b, strs, vs, names);
    var bt := EveryMeans(es, tag);
    AllOfOnce(es, tag, vs, at, Every(es, tag), bt);
    EachRead(b, strs, vs, names);
  }

  lemma TextsRead(b: Bytes, strs: Strings, es: seq<Tagged>, tables: Tables, interp: bool, elf: Elf)
    requires strs.at + strs.size <= |b| && TextsAre(b, strs, es, elf)
    ensures Named(b, strs, es, tables, interp).Ok?
  {
    StringRead(b, strs, es, DT_SONAME, elf.soname);
    StringsRead(b, strs, es, DT_NEEDED, elf.needed);
    StringRead(b, strs, es, DT_RPATH, elf.rpath);
    StringRead(b, strs, es, DT_RUNPATH, elf.runpath);
  }

  lemma TablesRead(b: Bytes, h: Headers, strs: Strings, es: seq<Tagged>, names: seq<Version>, elf: Elf)
    requires |b| < LIMIT && strs.at + strs.size <= |b| && TextsAre(b, strs, es, elf)
    requires VersionsAre(b, h.loads, strs, es, names) && SymbolsAre(b, h.loads, strs, es, names, elf)
    ensures SymbolsEnd(h.loads, es).Ok? && ReadTables(b, h.loads, strs, es, SymbolsEnd(h.loads, es).value, h.interp).Ok?
  {
    VersionsBack(b, h.loads, strs, es, names);
    SymbolsRead(b, h.loads, strs, names, es, elf);
    TextsRead(b, strs, es, Symbols(b, h.loads, strs, names, es, SymbolsEnd(h.loads, es).value).value, h.interp, elf);
  }

  lemma DynamicPlaced(b: Bytes, h: Headers, es: seq<Tagged>, strs: Strings, end: Option<nat>)
    requires Last(es, DT_STRTAB).Some? && OffsetOf(h.loads, Last(es, DT_STRTAB).value) == Ok(strs.at)
    requires Last(es, DT_STRSZ) == Some(strs.size) && strs.at + strs.size <= |b| && SymbolsEnd(h.loads, es) == Ok(end)
    ensures NothingAsked(es) || ReadDynamic(b, h, es) == ReadTables(b, h.loads, strs, es, end, h.interp)
  {
    assert strs == Strings(strs.at, strs.size);
  }

  lemma DynamicRead(b: Bytes, h: Headers, es: seq<Tagged>, elf: Elf)
    requires |b| < LIMIT && Dynamically(b, h, es, elf)
    ensures ReadDynamic(b, h, es).Ok?
  {
    NothingMeans(es);
    if !NothingAsked(es) {
      var strs: Strings, names :| DynamicBy(b, h, es, strs, names, elf);
      PointsIs(h.loads, es, DT_STRTAB, strs.at);
      TagIs(es, DT_STRSZ, strs.size);
      TablesRead(b, h, strs, es, names, elf);
      DynamicPlaced(b, h, es, strs, SymbolsEnd(h.loads, es).value);
    }
  }

  lemma BodyRead(b: Bytes, h: Headers, at: seq<nat>, elf: Elf)
    requires 58 <= |b| < LIMIT && HeadersSpell(b, h, at, elf)
    ensures ReadBody(b, h).Ok?
  {
    if h.dynamic.Some? {
      var (off, size) := h.dynamic.value;
      var es :| TagsAre(b, off, size, es) && Dynamically(b, h, es, elf);
      SectionMeans(b, off, size);
      TagsOnce(b, off, size, es, Entries(b, off, size / 16));
      DynamicRead(b, h, es, elf);
    }
  }

  lemma StartIs(b: Bytes)
    requires 58 <= |b| && b[..4] == [0x7f, 0x45, 0x4c, 0x46] && b[4] == 2 && b[5] == 1 && Le2(b, 18) == 62
    ensures StartsElf(b) && U16(b, 18) == Some(EM_X86_64)
    ensures U64(b, 32) == Some(Le8(b, 32)) && U16(b, 54) == Some(Le2(b, 54)) && U16(b, 56) == Some(Le2(b, 56))
  {
    WordsAre(b, 18);
    WordsAre(b, 32);
    WordsAre(b, 54);
    WordsAre(b, 56);
  }

  lemma HeadersGone(b: Bytes, start: nat, size: nat, n: nat, h: Headers, at: seq<nat>)
    requires 58 <= |b| < LIMIT && start == Le8(b, 32) && size == Le2(b, 54) && HeadersSane(b, n) && HeadersUpTo(b, n, h, at)
    ensures ReadHeaders(b, start, size, n, Headers([], None, false)) == Ok(h)
  {
    HeadersStart(b);
    HeadersGo(b, 0, n, start, size, n, Headers([], None, false));
    var g := ReadHeaders(b, start, size, n, Headers([], None, false)).value;
    var bt := HeadersMean(b, 0, n, start, size, n, Headers([], None, false), [], g);
    HeadersOnce(b, n, h, at, g, bt);
  }

  lemma SpelledParses(b: Bytes, elf: Elf)
    requires |b| < LIMIT && Spells(b, elf)
    ensures Parse(b).Ok?
  {
    StartIs(b);
    if Le2(b, 56) > 0 {
      var h, at :| HeadersSpell(b, h, at, elf);
      HeadersGone(b, Le8(b, 32), Le2(b, 54), Le2(b, 56), h, at);
      BodyRead(b, h, at, elf);
    }
  }

  /** The parser answers with something exactly when the file spells it. */
  lemma ParsedExactly(b: Bytes, elf: Elf)
    requires |b| < LIMIT
    ensures Parse(b) == Ok(elf) <==> Spells(b, elf)
  {
    if Parse(b).Ok? {
      ParsedMeans(b);
    }
    if Spells(b, elf) {
      SpelledParses(b, elf);
      ParsedMeans(b);
      SpellsOnce(b, elf, Parse(b).value);
    }
  }
}
