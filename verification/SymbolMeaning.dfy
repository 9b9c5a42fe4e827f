/** What a symbol is in terms of the file's bytes, every place spelled by its number: the symbol
    table's entries, and the versions of the chains beside it. */
module SymbolMeaning {
  import opened Paths
  import opened Disk
  import opened Elf
  import opened ElfMeaning
  import GnuHash

  // ---------------------------------------------------------------------------- symbols

  /** The symbol an entry of a symbol table spells: its name's offset, then the binding and the
      kind in one byte, and the size. */
  predicate EntryIs(b: Bytes, strs: Strings, e: nat, sym: Sym)
    requires strs.at + strs.size <= |b| && e + 24 <= |b|
  {
    && StringIs(b, strs, Le4(b, e), sym.name)
    && sym.weak == (b[e + 4] as nat / 16 == 2) && sym.kind == b[e + 4] as nat % 16
    && sym.isObject == (sym.kind == 1 || sym.kind == 6)
    && sym.size == Le8(b, e + 16)
  }

  ghost predicate FirstOf(names: seq<Version>, ndx: nat, k: nat) {
    k < |names| && names[k].ndx == ndx && forall j :: 0 <= j < k ==> names[j].ndx != ndx
  }

  /** The low fifteen bits of a version word number a version, and the top one hides it. */
  ghost predicate VersionIs(names: seq<Version>, raw: nat, version: Option<Name>, isDefault: bool) {
    if raw % 32768 <= 1 then version == None && isDefault
    else
      || (exists k: nat :: FirstOf(names, raw % 32768, k) && version == Some(names[k].name) && isDefault == (names[k].mine && raw < 32768))
      || ((forall j :: 0 <= j < |names| ==> names[j].ndx != raw % 32768) && version == None && isDefault == (raw < 32768))
  }

  ghost predicate VersionedAs(b: Bytes, names: seq<Version>, versym: Option<nat>, i: nat, sym: Sym) {
    match versym
    case None => sym.version == None && sym.isDefault
    case Some(v) => v + 2 * i + 2 <= |b| && VersionIs(names, Le2(b, v + 2 * i), sym.version, sym.isDefault)
  }

  lemma {:induction false} FindMeans(names: seq<Version>, ndx: nat)
    ensures match FindVersion(names, ndx)
      case Some(v) => exists k: nat :: FirstOf(names, ndx, k) && names[k] == v
      case None => forall j :: 0 <= j < |names| ==> names[j].ndx != ndx
    decreases |names|
  {
    if names != [] {
      if names[0].ndx == ndx {
        assert FirstOf(names, ndx, 0);
      } else {
        var rest := names[1..];
        FindMeans(rest, ndx);
        assert forall j :: 1 <= j < |names| ==> names[j] == rest[j - 1];
        if FindVersion(rest, ndx).Some? {
          var k: nat :| FirstOf(rest, ndx, k) && rest[k] == FindVersion(rest, ndx).value;
          assert FirstOf(names, ndx, k + 1);
        }
      }
    }
  }

  lemma VersionMeans(names: seq<Version>, raw: nat)
    ensures VersionIs(names, raw, VersionOf(names, raw).0, VersionOf(names, raw).1)
  {
    FindMeans(names, raw % 32768);
  }

  lemma EntryMeans(b: Bytes, strs: Strings, names: seq<Version>, t: Table, i: nat, e: nat, sym: Sym)
    requires strs.at + strs.size <= |b| && e == EntryAt(t, i) && e + 24 <= |b|
    requires SymbolAt(b, strs, names, t, i) == Ok(Some(sym))
    ensures EntryIs(b, strs, e, sym)
  {
    WordsAre(b, e);
    WordsAre(b, e + 16);
    StringMeans(b, strs, Le4(b, e), sym.name);
  }

  lemma EntryVersion(b: Bytes, strs: Strings, names: seq<Version>, t: Table, i: nat, sym: Sym)
    requires strs.at + strs.size <= |b| && EntryAt(t, i) + 24 <= |b|
    requires SymbolAt(b, strs, names, t, i) == Ok(Some(sym))
    ensures VersionedAs(b, names, t.versym, i, sym)
  {
    if t.versym.Some? {
      WordsAre(b, t.versym.value + 2 * i);
      VersionMeans(names, U16(b, t.versym.value + 2 * i).value);
    }
  }

  /** A named entry; it is undefined when its section number, bytes 6 and 7, is zero. */
  predicate StandsOn(b: Bytes, e: nat, undef: bool) {
    e + 24 <= |b| && Le4(b, e) != 0 && undef == (b[e + 6] == 0 && b[e + 7] == 0)
  }

  ghost function Standing(b: Bytes, t: Table, undef: bool): nat -> bool {
    (i: nat) => StandsOn(b, EntryAt(t, i), undef)
  }

  /** One side of the answer: the entries that stand on it, in order, each with its symbol. */
  ghost predicate SideSpells(b: Bytes, strs: Strings, names: seq<Version>, t: Table, n: nat, undef: bool, syms: seq<Sym>, at: seq<nat>) {
    && strs.at + strs.size <= |b| && |at| == |syms| && Chosen(n, at, Standing(b, t, undef))
    && forall k :: 0 <= k < |at| ==> Spelled(b, strs, names, t, at[k], syms[k])
  }

  ghost predicate Spelled(b: Bytes, strs: Strings, names: seq<Version>, t: Table, i: nat, sym: Sym)
    requires strs.at + strs.size <= |b|
  {
    EntryAt(t, i) + 24 <= |b| && EntryIs(b, strs, EntryAt(t, i), sym) && VersionedAs(b, names, t.versym, i, sym)
  }

  lemma OnSideIs(b: Bytes, t: Table, i: nat, undef: bool)
    requires EntryAt(t, i) + 24 <= |b|
    ensures GnuHash.OnSide(b, t, i, undef) == StandsOn(b, EntryAt(t, i), undef)
  {
    WordsAre(b, EntryAt(t, i));
    WordsAre(b, EntryAt(t, i) + 6);
  }

  lemma SideChosen(b: Bytes, t: Table, n: nat, undef: bool, side: seq<nat>)
    requires t.entsize >= 24 && EntryAt(t, n) <= |b| && side == GnuHash.Side(b, t, n, undef)
    ensures Chosen(n, side, Standing(b, t, undef))
  {
    GnuHash.SideHolds(b, t, n, undef);
    SideStands(b, t, n, undef, side);
  }

  lemma SideStands(b: Bytes, t: Table, n: nat, undef: bool, side: seq<nat>)
    requires forall i :: 0 <= i < n ==> EntryAt(t, i) + 24 <= |b|
    requires GnuHash.Rises(side) && forall i: nat :: i in side <==> i < n && GnuHash.OnSide(b, t, i, undef)
    ensures Chosen(n, side, Standing(b, t, undef))
  {
    forall k | 0 <= k < |side| ensures side[k] < n && Standing(b, t, undef)(side[k]) {
      assert side[k] in side;
      OnSideIs(b, t, side[k], undef);
    }
    forall i: nat | i < n && Standing(b, t, undef)(i) ensures i in side {
      OnSideIs(b, t, i, undef);
    }
  }

  lemma SideMeans(b: Bytes, strs: Strings, names: seq<Version>, t: Table, n: nat, undef: bool, syms: seq<Sym>) returns (at: seq<nat>)
    requires Fits(b, strs, t, n) && SymbolsUpTo(b, strs, names, t, n).Ok?
    requires syms == GnuHash.SideOf(SymbolsUpTo(b, strs, names, t, n).value, undef)
    ensures SideSpells(b, strs, names, t, n, undef, syms, at)
  {
    at := GnuHash.Side(b, t, n, undef);
    SideChosen(b, t, n, undef, at);
    GnuHash.SideRead(b, strs, names, t, n, undef);
    forall k | 0 <= k < |at| ensures Spelled(b, strs, names, t, at[k], syms[k]) {
      EntryMeans(b, strs, names, t, at[k], EntryAt(t, at[k]), syms[k]);
      EntryVersion(b, strs, names, t, at[k], syms[k]);
    }
  }

  // --------------------------------------------------------------------------- versions

  /** A chain of at most `num` records from `t` on, at the places `at`: each has its room in the
      file and says at `gap` how far on the next one is, or zero when it is the last. */
  ghost predicate Linked(b: Bytes, t: nat, num: nat, room: nat, gap: nat, at: seq<nat>)
    requires gap + 4 <= room
  {
    && |at| <= num && (num > 0 ==> at != [] && at[0] == t)
    && (forall k, l :: 0 <= k < |at| && l == k + 1 && l < |at| ==> Next(b, room, gap, at[k], at[l]))
    && (at != [] ==> EndsAt(b, room, gap, at[|at| - 1], |at| == num))
  }

  predicate Next(b: Bytes, room: nat, gap: nat, t: nat, u: nat)
    requires gap + 4 <= room
  {
    t + room <= |b| && Le4(b, t + gap) != 0 && u == t + Le4(b, t + gap)
  }

  predicate EndsAt(b: Bytes, room: nat, gap: nat, t: nat, full: bool)
    requires gap + 4 <= room
  {
    t + room <= |b| && (full || Le4(b, t + gap) == 0)
  }

  function Joined(each: seq<seq<Version>>): seq<Version> {
    if each == [] then [] else each[0] + Joined(each[1..])
  }

  type Carries = (nat, seq<Version>) -> bool

  /** The versions the records of a chain carry, record by record. */
  ghost predicate Carried(b: Bytes, t: nat, num: nat, room: nat, gap: nat, carries: Carries, at: seq<nat>, each: seq<seq<Version>>, vs: seq<Version>)
    requires gap + 4 <= room
  {
    && Linked(b, t, num, room, gap, at) && |each| == |at| && vs == Joined(each)
    && forall k :: 0 <= k < |at| ==> carries(at[k], each[k])
  }

  type Follows = (nat, nat) -> Result<seq<Version>>

  /** Reading a chain is reading its first record and going on where that says. */
  ghost predicate OneMore(b: Bytes, f: Follows, room: nat, gap: nat, carries: Carries, t: nat, left: nat, vs: seq<Version>, mine: seq<Version>, rest: seq<Version>)
    requires gap + 4 <= room
  {
    && t + room <= |b| && carries(t, mine) && vs == mine + rest
    && if Le4(b, t + gap) == 0 then rest == [] else f(t + Le4(b, t + gap), left) == Ok(rest)
  }

  ghost predicate Chains(b: Bytes, f: Follows, room: nat, gap: nat, carries: Carries)
    requires gap + 4 <= room
  {
    && (forall t: nat :: f(t, 0) == Ok([]))
    && forall t: nat, n: nat, left: nat, vs :: n == left + 1 && f(t, n) == Ok(vs) ==> GoesOn(b, f, room, gap, carries, t, left, vs)
  }

  ghost predicate GoesOn(b: Bytes, f: Follows, room: nat, gap: nat, carries: Carries, t: nat, left: nat, vs: seq<Version>)
    requires gap + 4 <= room
  {
    exists mine, rest :: OneMore(b, f, room, gap, carries, t, left, vs, mine, rest)
  }

  lemma GoesOnBy(b: Bytes, f: Follows, room: nat, gap: nat, carries: Carries, t: nat, left: nat, vs: seq<Version>, mine: seq<Version>, rest: seq<Version>, next: nat)
    requires gap + 4 <= room && t + room <= |b| && next == Le4(b, t + gap) && carries(t, mine) && vs == mine + rest
    requires if next == 0 then rest == [] else f(t + next, left) == Ok(rest)
    ensures GoesOn(b, f, room, gap, carries, t, left, vs)
  {
    assert OneMore(b, f, room, gap, carries, t, left, vs, mine, rest);
  }

  lemma LinkedOn(b: Bytes, t: nat, num: nat, left: nat, room: nat, gap: nat, next: nat, rest: seq<nat>, at: seq<nat>)
    requires gap + 4 <= room && t + room <= |b| && next == Le4(b, t + gap) && num == left + 1
    requires if next == 0 then rest == [] else Linked(b, t + next, left, room, gap, rest)
    requires at == [t] + rest
    ensures Linked(b, t, num, room, gap, at)
  {
    forall k, l | 0 <= k < |at| && l == k + 1 && l < |at| ensures Next(b, room, gap, at[k], at[l]) {
      assert at[l] == rest[k] && (k > 0 ==> at[k] == rest[k - 1]);
    }
    assert rest != [] ==> at[|at| - 1] == rest[|rest| - 1];
  }

  lemma {:induction false} ChainMeans(b: Bytes, f: Follows, room: nat, gap: nat, carries: Carries, t: nat, num: nat, vs: seq<Version>)
    returns (at: seq<nat>, each: seq<seq<Version>>)
    requires gap + 4 <= room && Chains(b, f, room, gap, carries) && f(t, num) == Ok(vs)
    ensures Carried(b, t, num, room, gap, carries, at, each, vs)
    decreases num
  {
    at, each := [], [];
    if num > 0 {
      var left: nat := num - 1;
      assert GoesOn(b, f, room, gap, carries, t, left, vs);
      var mine, rest :| OneMore(b, f, room, gap, carries, t, left, vs, mine, rest);
      var next := Le4(b, t + gap);
      if next != 0 {
        at, each := ChainMeans(b, f, room, gap, carries, t + next, left, rest);
      }
      LinkedOn(b, t, num, left, room, gap, next, at, [t] + at);
      assert ([mine] + each)[1..] == each;
      at, each := [t] + at, [mine] + each;
    }
  }

  // ------------------------------------------------------------------- defined versions

  /** The definition a record carries: its number and the name its first auxiliary record points
      at; a record flagged as the file itself carries none. */
  ghost predicate DefinedAt(b: Bytes, strs: Strings, t: nat, vs: seq<Version>)
    requires strs.at + strs.size <= |b|
  {
    && t + 20 <= |b|
    && if Le2(b, t + 2) % 2 == 1 then vs == []
       else |vs| == 1 && vs[0].mine && vs[0].ndx == Le2(b, t + 4) && NamedThere(b, strs, t + Le4(b, t + 12), vs[0].name)
  }

  ghost predicate NamedThere(b: Bytes, strs: Strings, a: nat, name: Name)
    requires strs.at + strs.size <= |b|
  {
    a + 4 <= |b| && StringIs(b, strs, Le4(b, a), name)
  }

  ghost function Definitions(b: Bytes, strs: Strings): Carries
    requires strs.at + strs.size <= |b|
  {
    (t: nat, vs: seq<Version>) => DefinedAt(b, strs, t, vs)
  }

  ghost function ReadDefined(b: Bytes, strs: Strings): Follows
    requires strs.at + strs.size <= |b|
  {
    (t: nat, num: nat) => Verdefs(b, strs, t, num)
  }

  lemma VerdefWords(b: Bytes, t: nat)
    ensures VerdefAt(b, t) == if t + 20 > |b| then None else Some(Verdef(Le2(b, t + 2) % 2 == 1, Le2(b, t + 4), Le4(b, t + 12), Le4(b, t + 16)))
  {
    WordsAre(b, t + 2);
    WordsAre(b, t + 4);
    WordsAre(b, t + 12);
    WordsAre(b, t + 16);
  }

  lemma VerdefNamed(b: Bytes, strs: Strings, t: nat, r: Verdef, vs: seq<Version>)
    requires strs.at + strs.size <= |b| && VerdefAt(b, t) == Some(r) && VerdefName(b, strs, t, r) == Ok(vs)
    ensures t + 20 <= |b| && r.next == Le4(b, t + 16) && DefinedAt(b, strs, t, vs)
  {
    VerdefWords(b, t);
    if !r.base {
      WordsAre(b, t + r.aux);
      StringMeans(b, strs, Le4(b, t + r.aux), vs[0].name);
    }
  }

  lemma DefinesOne(b: Bytes, strs: Strings, t: nat, n: nat, left: nat, vs: seq<Version>) returns (r: Verdef, mine: seq<Version>, rest: seq<Version>)
    requires strs.at + strs.size <= |b| && n == left + 1 && Verdefs(b, strs, t, n) == Ok(vs)
    ensures VerdefAt(b, t) == Some(r) && VerdefName(b, strs, t, r) == Ok(mine) && vs == mine + rest
    ensures if r.next == 0 then rest == [] else Verdefs(b, strs, t + r.next, left) == Ok(rest)
  {
    r := VerdefAt(b, t).value;
    mine := VerdefName(b, strs, t, r).value;
    rest := if r.next == 0 then [] else Verdefs(b, strs, t + r.next, left).value;
  }

  lemma DefinesNext(b: Bytes, strs: Strings, t: nat, n: nat, left: nat, vs: seq<Version>)
    requires strs.at + strs.size <= |b| && n == left + 1 && Verdefs(b, strs, t, n) == Ok(vs)
    ensures GoesOn(b, ReadDefined(b, strs), 20, 16, Definitions(b, strs), t, left, vs)
  {
    var r, mine, rest := DefinesOne(b, strs, t, n, left, vs);
    VerdefNamed(b, strs, t, r, mine);
    GoesOnBy(b, ReadDefined(b, strs), 20, 16, Definitions(b, strs), t, left, vs, mine, rest, r.next);
  }

  /** The definitions read are those of a chain's records, in order. */
  lemma DefinesMean(b: Bytes, strs: Strings, t: nat, num: nat, vs: seq<Version>) returns (at: seq<nat>, each: seq<seq<Version>>)
    requires strs.at + strs.size <= |b| && Verdefs(b, strs, t, num) == Ok(vs)
    ensures Carried(b, t, num, 20, 16, Definitions(b, strs), at, each, vs)
  {
    var f, carries := ReadDefined(b, strs), Definitions(b, strs);
    forall t: nat, n: nat, left: nat, vs | n == left + 1 && f(t, n) == Ok(vs) ensures GoesOn(b, f, 20, 16, carries, t, left, vs) {
      DefinesNext(b, strs, t, n, left, vs);
    }
    at, each := ChainMeans(b, f, 20, 16, carries, t, num, vs);
  }

  // --------------------------------------------------------------------- asked versions

  /** The version a needed file is asked for by a record: its number and its name. */
  ghost predicate AskedAt(b: Bytes, strs: Strings, a: nat, vs: seq<Version>)
    requires strs.at + strs.size <= |b|
  {
    && a + 16 <= |b| && |vs| == 1
    && !vs[0].mine && vs[0].ndx == Le2(b, a + 6) && StringIs(b, strs, Le4(b, a + 8), vs[0].name)
  }

  ghost function Askings(b: Bytes, strs: Strings): Carries
    requires strs.at + strs.size <= |b|
  {
    (a: nat, vs: seq<Version>) => AskedAt(b, strs, a, vs)
  }

  ghost function ReadAsked(b: Bytes, strs: Strings): Follows
    requires strs.at + strs.size <= |b|
  {
    (a: nat, cnt: nat) => Vernauxs(b, strs, a, cnt)
  }

  lemma VernauxWords(b: Bytes, a: nat)
    ensures VernauxAt(b, a) == if a + 16 > |b| then None else Some(Vernaux(Le2(b, a + 6), Le4(b, a + 8), Le4(b, a + 12)))
  {
    WordsAre(b, a + 6);
    WordsAre(b, a + 8);
    WordsAre(b, a + 12);
  }

  lemma AsksNext(b: Bytes, strs: Strings, a: nat, n: nat, left: nat, vs: seq<Version>)
    requires strs.at + strs.size <= |b| && n == left + 1 && Vernauxs(b, strs, a, n) == Ok(vs)
    ensures GoesOn(b, ReadAsked(b, strs), 16, 12, Askings(b, strs), a, left, vs)
  {
    VernauxWords(b, a);
    var r := VernauxAt(b, a).value;
    var mine := [Version(r.other, StringAt(b, strs, r.name).value, false)];
    var rest := if r.next == 0 then [] else Vernauxs(b, strs, a + r.next, left).value;
    StringMeans(b, strs, r.name, mine[0].name);
    GoesOnBy(b, ReadAsked(b, strs), 16, 12, Askings(b, strs), a, left, vs, mine, rest, r.next);
  }

  lemma AsksMean(b: Bytes, strs: Strings, a: nat, cnt: nat, vs: seq<Version>) returns (at: seq<nat>, each: seq<seq<Version>>)
    requires strs.at + strs.size <= |b| && Vernauxs(b, strs, a, cnt) == Ok(vs)
    ensures Carried(b, a, cnt, 16, 12, Askings(b, strs), at, each, vs)
  {
    var f, carries := ReadAsked(b, strs), Askings(b, strs);
    forall a: nat, n: nat, left: nat, vs | n == left + 1 && f(a, n) == Ok(vs) ensures GoesOn(b, f, 16, 12, carries, a, left, vs) {
      AsksNext(b, strs, a, n, left, vs);
    }
    at, each := ChainMeans(b, f, 16, 12, carries, a, cnt, vs);
  }

  /** The versions asked for of one needed file: as many as it counts, from where it says. */
  ghost predicate NeededAt(b: Bytes, strs: Strings, t: nat, vs: seq<Version>)
    requires strs.at + strs.size <= |b|
  {
    t + 16 <= |b| && exists at, each :: NeededBy(b, strs, t, at, each, vs)
  }

  ghost predicate NeededBy(b: Bytes, strs: Strings, t: nat, at: seq<nat>, each: seq<seq<Version>>, vs: seq<Version>)
    requires strs.at + strs.size <= |b| && t + 16 <= |b|
  {
    Carried(b, t + Le4(b, t + 8), Le2(b, t + 2), 16, 12, Askings(b, strs), at, each, vs)
  }

  ghost function Needings(b: Bytes, strs: Strings): Carries
    requires strs.at + strs.size <= |b|
  {
    (t: nat, vs: seq<Version>) => NeededAt(b, strs, t, vs)
  }

  ghost function ReadNeeded(b: Bytes, strs: Strings): Follows
    requires strs.at + strs.size <= |b|
  {
    (t: nat, num: nat) => Verneeds(b, strs, t, num)
  }

  lemma VerneedWords(b: Bytes, t: nat)
    ensures VerneedAt(b, t) == if t + 16 > |b| then None else Some(Verneed(Le2(b, t + 2), Le4(b, t + 8), Le4(b, t + 12)))
  {
    WordsAre(b, t + 2);
    WordsAre(b, t + 8);
    WordsAre(b, t + 12);
  }

  lemma VerneedNamed(b: Bytes, strs: Strings, t: nat, r: Verneed, vs: seq<Version>)
    requires strs.at + strs.size <= |b| && VerneedAt(b, t) == Some(r) && Vernauxs(b, strs, t + r.aux, r.cnt) == Ok(vs)
    ensures t + 16 <= |b| && r.next == Le4(b, t + 12) && NeededAt(b, strs, t, vs)
  {
    VerneedWords(b, t);
    var at, each := AsksMean(b, strs, t + r.aux, r.cnt, vs);
    assert NeededBy(b, strs, t, at, each, vs);
  }

  lemma NeedsOne(b: Bytes, strs: Strings, t: nat, n: nat, left: nat, vs: seq<Version>) returns (r: Verneed, mine: seq<Version>, rest: seq<Version>)
    requires strs.at + strs.size <= |b| && n == left + 1 && Verneeds(b, strs, t, n) == Ok(vs)
    ensures VerneedAt(b, t) == Some(r) && Vernauxs(b, strs, t + r.aux, r.cnt) == Ok(mine) && vs == mine + rest
    ensures if r.next == 0 then rest == [] else Verneeds(b, strs, t + r.next, left) == Ok(rest)
  {
    r := VerneedAt(b, t).value;
    mine := Vernauxs(b, strs, t + r.aux, r.cnt).value;
    rest := if r.next == 0 then [] else Verneeds(b, strs, t + r.next, left).value;
  }

  lemma NeedsNext(b: Bytes, strs: Strings, t: nat, n: nat, left: nat, vs: seq<Version>)
    requires strs.at + strs.size <= |b| && n == left + 1 && Verneeds(b, strs, t, n) == Ok(vs)
    ensures GoesOn(b, ReadNeeded(b, strs), 16, 12, Needings(b, strs), t, left, vs)
  {
    var r, mine, rest := NeedsOne(b, strs, t, n, left, vs);
    VerneedNamed(b, strs, t, r, mine);
    GoesOnBy(b, ReadNeeded(b, strs), 16, 12, Needings(b, strs), t, left, vs, mine, rest, r.next);
  }

  /** The versions asked for are those of each needed file in turn. */
  lemma NeedsMean(b: Bytes, strs: Strings, t: nat, num: nat, vs: seq<Version>) returns (at: seq<nat>, each: seq<seq<Version>>)
    requires strs.at + strs.size <= |b| && Verneeds(b, strs, t, num) == Ok(vs)
    ensures Carried(b, t, num, 16, 12, Needings(b, strs), at, each, vs)
  {
    var f, carries := ReadNeeded(b, strs), Needings(b, strs);
    forall t: nat, n: nat, left: nat, vs | n == left + 1 && f(t, n) == Ok(vs) ensures GoesOn(b, f, 16, 12, carries, t, left, vs) {
      NeedsNext(b, strs, t, n, left, vs);
    }
    at, each := ChainMeans(b, f, 16, 12, carries, t, num, vs);
  }
}
