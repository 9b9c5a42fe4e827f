/** The reader as elf.rs runs it, in 64-bit arithmetic that must not wrap: on any file shorter
    than 2^63 bytes every read is in range, every loop ends and every sum and product fits. */
module ElfReader {
  import opened Paths
  import opened Disk
  import opened Elf

  newtype usize = x: int | 0 <= x < 0x1_0000_0000_0000_0000

  function R16(b: Bytes, p: usize): (r: Option<usize>)
    ensures r.Some? ==> r.value < 0x1_0000
  {
    match U16(b, p as nat) case None => None case Some(v) => Some(v as usize)
  }

  function R32(b: Bytes, p: usize): (r: Option<usize>)
    ensures r.Some? ==> r.value < 0x1_0000_0000
  {
    match U32(b, p as nat) case None => None case Some(v) => Some(v as usize)
  }

  function R64(b: Bytes, p: usize): Option<usize> {
    match U64(b, p as nat) case None => None case Some(v) => Some(v as usize)
  }

  /** A file that fits in memory. */
  predicate Loaded(b: Bytes) {
    |b| < 0x8000_0000_0000_0000
  }

  lemma {:induction false} WordDrop(b: Bytes, t: nat, p: nat, n: nat)
    requires t <= |b| && t + p + n <= |b|
    ensures Word(b[t..], p, n) == Word(b, t + p, n)
    decreases n
  {
    if n > 0 {
      WordDrop(b, t, p + 1, n - 1);
    }
  }

  /** Reading in a slice is reading in the file, that much further on. */
  lemma SliceReads(b: Bytes, t: nat)
    requires t <= |b|
    ensures forall p: nat :: U16(b[t..], p) == U16(b, t + p)
    ensures forall p: nat :: U32(b[t..], p) == U32(b, t + p)
  {
    forall p: nat, n: nat | t + p + n <= |b| ensures Word(b[t..], p, n) == Word(b, t + p, n) {
      WordDrop(b, t, p, n);
    }
  }

  // ------------------------------------------------------------------------------ count

  method LastOfBuckets(b: Bytes, at: nat, bucketsAt: usize, nbuckets: usize) returns (r: Option<usize>)
    requires Loaded(b) && at <= |b| && bucketsAt < 0x10_0000_0000 && nbuckets < 0x1_0000_0000
    ensures r.None? <==> nbuckets > 0 && at + bucketsAt as nat + 4 * nbuckets as nat > |b|
    ensures r.Some? ==> r.value < 0x1_0000_0000
    ensures r.Some? && nbuckets > 0 ==> r.value as nat == LastBucket(b, at + bucketsAt as nat, nbuckets as nat)
    ensures r.Some? && nbuckets == 0 ==> r.value == 0
  {
    var t := b[at..];
    SliceReads(b, at);
    var last: usize := 0;
    var i: usize := 0;
    while i < nbuckets
      invariant i <= nbuckets && last < 0x1_0000_0000
      invariant i > 0 ==> at + bucketsAt as nat + 4 * i as nat <= |b| && last as nat == LastBucket(b, at + bucketsAt as nat, i as nat)
      invariant i == 0 ==> last == 0
    {
      var v := R32(t, bucketsAt + i * 4);
      if v.None? {
        return None;
      }
      last := if v.value > last then v.value else last;
      i := i + 1;
    }
    return Some(last);
  }

  method WalkChain(b: Bytes, at: nat, chainAt: usize, first: usize) returns (r: Option<usize>)
    requires Loaded(b) && at <= |b| && chainAt < 0x20_0000_0000 && first < 0x1_0000_0000
    ensures r.None? <==> ChainEnd(b, at + chainAt as nat, first as nat).None?
    ensures r.Some? ==> r.value < 0x8000_0000_0000_0000
    ensures r.Some? ==> ChainEnd(b, at + chainAt as nat, first as nat) == Some(r.value as nat)
  {
    var t := b[at..];
    SliceReads(b, at);
    var i := first;
    while true
      invariant chainAt as int + 4 * i as int < 0x8000_0000_0000_0000
      invariant ChainEnd(b, at + chainAt as nat, i as nat) == ChainEnd(b, at + chainAt as nat, first as nat)
      decreases |t| - 4 * i as int
    {
      var v := R32(t, chainAt + i * 4);
      if v.None? {
        return None;
      }
      if v.value % 2 == 1 {
        return Some(i);
      }
      i := i + 1;
    }
  }

  /** The sizes at the front of a GNU hash table, and where its buckets start. */
  method ReadGnuHeader(b: Bytes, at: nat) returns (r: Option<(usize, usize, usize)>)
    requires Loaded(b) && at <= |b|
    ensures r.None? <==> GnuHeaderAt(b, at).None?
    ensures r.Some? ==>
      && r.value.0 < 0x1_0000_0000 && r.value.1 < 0x1_0000_0000 && r.value.2 < 0x10_0000_0000
      && GnuHeaderAt(b, at) == Some(GnuHeader(r.value.0 as nat, r.value.1 as nat, at + r.value.2 as nat))
  {
    var t := b[at..];
    SliceReads(b, at);
    var nbuckets, symoffset, bloom := R32(t, 0), R32(t, 4), R32(t, 8);
    if nbuckets.None? || symoffset.None? || bloom.None? {
      return None;
    }
    return Some((nbuckets.value, symoffset.value, 16 + bloom.value * 8));
  }

  lemma GnuCountIs(b: Bytes, at: nat, g: GnuHeader, last: nat)
    requires at <= |b| && GnuHeaderAt(b, at) == Some(g) && (g.nbuckets == 0 || g.buckets + 4 * g.nbuckets <= |b|)
    requires last == if g.nbuckets == 0 then 0 else LastBucket(b, g.buckets, g.nbuckets)
    ensures GnuCount(b, at) == GnuChains(b, g, last)
  {
  }

  method CountGnu(b: Bytes, at: nat) returns (r: Result<nat>)
    requires Loaded(b)
    ensures r == GnuCount(b, at)
  {
    if at > |b| {
      return Err(GnuHashPastFile);
    }
    var h := ReadGnuHeader(b, at);
    if h.None? {
      return Err(ShortGnuHash);
    }
    var (nbuckets, symoffset, bucketsAt) := h.value;
    var last := LastOfBuckets(b, at, bucketsAt, nbuckets);
    if last.None? {
      return Err(ShortBuckets);
    }
    GnuCountIs(b, at, GnuHeader(nbuckets as nat, symoffset as nat, at + bucketsAt as nat), last.value as nat);
    if last.value < symoffset {
      return Ok(symoffset as nat);
    }
    var i := WalkChain(b, at, bucketsAt + nbuckets * 4, last.value - symoffset);
    if i.None? {
      return Err(ChainOffEnd);
    }
    return Ok((symoffset + i.value + 1) as nat);
  }

  method CountOf(b: Bytes, loads: seq<Load>, hash: Option<nat>, gnu: Option<nat>) returns (r: Result<nat>)
    requires Loaded(b)
    ensures r == Count(b, loads, hash, gnu)
  {
    if gnu.Some? {
      var o := OffsetOf(loads, gnu.value);
      if o.Err? {
        return Err(o.fault);
      }
      r := CountGnu(b, o.value);
      return;
    }
    if hash.Some? {
      var o := OffsetOf(loads, hash.value);
      if o.Err? {
        return Err(o.fault);
      }
      if o.value > |b| {
        return Err(HashPastFile);
      }
      SliceReads(b, o.value);
      var n := R32(b[o.value..], 4);
      return if n.None? then Err(ShortHash) else Ok(n.value as nat);
    }
    return Err(NoHash);
  }

  // --------------------------------------------------------------------------- versions

  lemma OntoOnto(a: seq<Version>, c: seq<Version>, r: Result<seq<Version>>)
    ensures Onto(a, Onto(c, r)) == Onto(a + c, r)
  {
    if r.Ok? { assert a + (c + r.value) == a + c + r.value; }
  }

  lemma OntoNothing(r: Result<seq<Version>>)
    ensures Onto([], r) == r
  {
    if r.Ok? { assert [] + r.value == r.value; }
  }

  /** The fields of a definition, read one by one. */
  lemma VerdefFields(b: Bytes, at: nat, at_: usize, flags: Option<usize>, ndx: Option<usize>, aux: Option<usize>, on: Option<usize>)
    requires Loaded(b) && at <= |b| && at_ as int <= |b| + 0x1_0000_0000
    requires flags == R16(b[at..], at_ + 2) && ndx == R16(b[at..], at_ + 4) && aux == R32(b[at..], at_ + 12) && on == R32(b[at..], at_ + 16)
    ensures VerdefAt(b, at + at_ as nat) ==
      if flags.None? || ndx.None? || aux.None? || on.None? then None
      else Some(Verdef(flags.value % 2 == 1, ndx.value as nat, aux.value as nat, on.value as nat))
  {
    SliceReads(b, at);
  }

  /** The name of a definition, read through its first auxiliary record. */
  lemma VerdefNamed(b: Bytes, strs: Strings, at: nat, at_: usize, v: Verdef, name: Option<usize>)
    requires Loaded(b) && at <= |b| && strs.at + strs.size <= |b| && at_ as int <= |b| + 0x1_0000_0000 && v.aux < 0x1_0000_0000 && !v.base
    requires name == R32(b[at..], at_ + v.aux as usize)
    ensures VerdefName(b, strs, at + at_ as nat, v) ==
      if name.None? then Err(ShortVerdaux)
      else
        var s := StringAt(b, strs, name.value as nat);
        if s.Err? then Err(s.fault) else Ok([Version(v.ndx, s.value, true)])
  {
    SliceReads(b, at);
  }

  /** One definition: its name if it has one, and how far on the next one is. */
  method ReadVerdef(b: Bytes, strs: Strings, at: nat, at_: usize) returns (r: Result<seq<Version>>, next: usize)
    requires Loaded(b) && at <= |b| && strs.at + strs.size <= |b| && at_ as int <= |b| + 0x1_0000_0000
    ensures var v := VerdefAt(b, at + at_ as nat);
      && (v.None? ==> r == Err(ShortVerdef))
      && (v.Some? ==> r == VerdefName(b, strs, at + at_ as nat, v.value) && (r.Ok? ==> next as nat == v.value.next))
    ensures next < 0x1_0000_0000 && (r.Ok? ==> at_ as int <= |b|)
  {
    var t := b[at..];
    next := 0;
    var flags, ndx, aux, on := R16(t, at_ + 2), R16(t, at_ + 4), R32(t, at_ + 12), R32(t, at_ + 16);
    VerdefFields(b, at, at_, flags, ndx, aux, on);
    if flags.None? || ndx.None? || aux.None? || on.None? {
      return Err(ShortVerdef), 0;
    }
    if flags.value % 2 == 1 {
      return Ok([]), on.value;
    }
    var name := R32(t, at_ + aux.value);
    VerdefNamed(b, strs, at, at_, VerdefAt(b, at + at_ as nat).value, name);
    if name.None? {
      return Err(ShortVerdaux), 0;
    }
    var s := StringAt(b, strs, name.value as nat);
    return if s.Err? then Err(s.fault) else Ok([Version(ndx.value as nat, s.value, true)]), on.value;
  }

  /** What reading one record comes to for the whole chain. */
  lemma VerdefsStep(b: Bytes, strs: Strings, t: nat, left: nat, out: seq<Version>, vs: Result<seq<Version>>, next: nat, whole: Result<seq<Version>>, after: nat, fewer: nat)
    requires strs.at + strs.size <= |b| && left > 0 && whole == Onto(out, Verdefs(b, strs, t, left)) && after == t + next && fewer == left - 1
    requires var v := VerdefAt(b, t);
      && (v.None? ==> vs == Err(ShortVerdef))
      && (v.Some? ==> vs == VerdefName(b, strs, t, v.value) && (vs.Ok? ==> next == v.value.next))
    ensures vs.Err? ==> whole == vs
    ensures vs.Ok? && next == 0 ==> whole == Ok(out + vs.value)
    ensures vs.Ok? && next != 0 ==> whole == Onto(out + vs.value, Verdefs(b, strs, after, fewer))
  {
    if vs.Ok? && next != 0 {
      var rest := Verdefs(b, strs, after, fewer);
      VerdefsOne(b, strs, t, left, vs, rest);
      OntoOnto(out, vs.value, rest);
    }
  }

  /** One record of the chain: the answer, if it ends here, or what there is so far. */
  method NextVerdef(b: Bytes, strs: Strings, at: nat, at_: usize, ghost t: nat, ghost left: nat, out: seq<Version>, ghost whole: Result<seq<Version>>)
    returns (answer: Option<Result<seq<Version>>>, more: seq<Version>, next: usize, ghost after: nat, ghost fewer: nat)
    requires Loaded(b) && at <= |b| && strs.at + strs.size <= |b| && at_ as int <= |b| + 0x1_0000_0000 && t == at + at_ as nat
    requires left > 0 && whole == Onto(out, Verdefs(b, strs, t, left))
    ensures answer.Some? ==> answer.value == whole
    ensures answer.None? ==> 0 < next && at_ as int + next as int <= |b| + 0x1_0000_0000 && after == t + next as nat && fewer == left - 1
    ensures answer.None? ==> whole == Onto(more, Verdefs(b, strs, after, fewer))
  {
    var vs: Result<seq<Version>>;
    vs, next := ReadVerdef(b, strs, at, at_);
    after, fewer := t + next as nat, left - 1;
    VerdefsStep(b, strs, t, left, out, vs, next as nat, whole, after, fewer);
    more := out;
    if vs.Err? {
      answer := Some(vs);
      return;
    }
    more := out + vs.value;
    answer := if next == 0 then Some(Ok(more)) else None;
  }

  /** A linker may claim near 2^64 definitions: what ends the walk is that every record moves
      on, and the file does not. */
  method ReadVerdefs(b: Bytes, strs: Strings, at: nat, num: usize) returns (r: Result<seq<Version>>)
    requires Loaded(b) && at <= |b| && strs.at + strs.size <= |b|
    ensures r == Verdefs(b, strs, at, num as nat)
  {
    var out: seq<Version> := [];
    var at_: usize := 0;
    var left := num;
    ghost var t, fewer: nat := at, num as nat;
    ghost var whole := Verdefs(b, strs, at, num as nat);
    OntoNothing(whole);
    while left > 0
      invariant at_ as int <= |b| + 0x1_0000_0000 && t == at + at_ as nat && fewer == left as nat
      invariant whole == Onto(out, Verdefs(b, strs, t, fewer))
      decreases |b| + 0x1_0000_0000 - at_ as int
    {
      var answer, more, next;
      answer, more, next, t, fewer := NextVerdef(b, strs, at, at_, t, fewer, out, whole);
      if answer.Some? {
        return answer.value;
      }
      out, at_, left := more, at_ + next, left - 1;
    }
    assert out + [] == out;
    return Ok(out);
  }

  /** One version asked for: its number and name, and how far on the next one is. */
  method ReadVernaux(b: Bytes, strs: Strings, at: nat, a: usize) returns (r: Result<Version>, next: usize)
    requires Loaded(b) && at <= |b| && strs.at + strs.size <= |b| && a as int <= |b| + 0x2_0000_0000
    ensures var v := VernauxAt(b, at + a as nat);
      && (v.None? ==> r == Err(ShortVernaux))
      && (v.Some? ==> var s := StringAt(b, strs, v.value.name);
          r == (if s.Err? then Err(s.fault) else Ok(Version(v.value.other, s.value, false))) && (r.Ok? ==> next as nat == v.value.next))
    ensures next < 0x1_0000_0000 && (r.Ok? ==> a as int <= |b|)
  {
    var t := b[at..];
    SliceReads(b, at);
    var other, name, on := R16(t, a + 6), R32(t, a + 8), R32(t, a + 12);
    if other.None? || name.None? || on.None? {
      return Err(ShortVernaux), 0;
    }
    var s := StringAt(b, strs, name.value as nat);
    return if s.Err? then Err(s.fault) else Ok(Version(other.value as nat, s.value, false)), on.value;
  }

  /** What reading one record comes to for the whole chain. */
  lemma VernauxsStep(b: Bytes, strs: Strings, a: nat, left: nat, out: seq<Version>, v: Result<Version>, next: nat, whole: Result<seq<Version>>)
    requires strs.at + strs.size <= |b| && left > 0 && whole == Onto(out, Vernauxs(b, strs, a, left))
    requires var x := VernauxAt(b, a);
      && (x.None? ==> v == Err(ShortVernaux))
      && (x.Some? ==> var s := StringAt(b, strs, x.value.name);
          v == (if s.Err? then Err(s.fault) else Ok(Version(x.value.other, s.value, false))) && (v.Ok? ==> next == x.value.next))
    ensures v.Err? ==> whole == Err(v.fault)
    ensures v.Ok? && next == 0 ==> whole == Ok(out + [v.value])
    ensures v.Ok? && next != 0 ==> whole == Onto(out + [v.value], Vernauxs(b, strs, a + next, left - 1))
  {
    if v.Ok? && next != 0 {
      OntoOnto(out, [v.value], Vernauxs(b, strs, a + next, left - 1));
    }
  }

  /** One record of the chain: the answer, if it ends here, or what there is so far. */
  method NextVernaux(b: Bytes, strs: Strings, at: nat, a: usize, ghost left: nat, out: seq<Version>, ghost whole: Result<seq<Version>>)
    returns (answer: Option<Result<seq<Version>>>, more: seq<Version>, next: usize)
    requires Loaded(b) && at <= |b| && strs.at + strs.size <= |b| && a as int <= |b| + 0x2_0000_0000
    requires left > 0 && whole == Onto(out, Vernauxs(b, strs, at + a as nat, left))
    ensures answer.Some? ==> answer.value == whole
    ensures answer.None? ==> 0 < next && a as int + next as int <= |b| + 0x2_0000_0000 && whole == Onto(more, Vernauxs(b, strs, at + a as nat + next as nat, left - 1))
  {
    var v: Result<Version>;
    v, next := ReadVernaux(b, strs, at, a);
    VernauxsStep(b, strs, at + a as nat, left, out, v, next as nat, whole);
    more := out;
    if v.Err? {
      return Some(Err(v.fault)), more, next;
    }
    more := out + [v.value];
    answer := if next == 0 then Some(Ok(more)) else None;
  }

  method ReadVernauxs(b: Bytes, strs: Strings, at: nat, from: usize, cnt: usize) returns (r: Result<seq<Version>>)
    requires Loaded(b) && at <= |b| && strs.at + strs.size <= |b| && from as int <= |b| + 0x2_0000_0000 && cnt < 0x1_0000
    ensures r == Vernauxs(b, strs, at + from as nat, cnt as nat)
  {
    var out: seq<Version> := [];
    var a, left := from, cnt;
    ghost var whole := Vernauxs(b, strs, at + from as nat, cnt as nat);
    OntoNothing(whole);
    while left > 0
      invariant a as int <= |b| + 0x2_0000_0000
      invariant whole == Onto(out, Vernauxs(b, strs, at + a as nat, left as nat))
      decreases left
    {
      var answer, more, next := NextVernaux(b, strs, at, a, left as nat, out, whole);
      if answer.Some? {
        return answer.value;
      }
      out, a, left := more, a + next, left - 1;
    }
    assert out + [] == out;
    return Ok(out);
  }

  lemma VerneedFields(b: Bytes, at: nat, at_: usize, cnt: Option<usize>, aux: Option<usize>, on: Option<usize>)
    requires Loaded(b) && at <= |b| && at_ as int <= |b| + 0x1_0000_0000
    requires cnt == R16(b[at..], at_ + 2) && aux == R32(b[at..], at_ + 8) && on == R32(b[at..], at_ + 12)
    ensures VerneedAt(b, at + at_ as nat) ==
      if cnt.None? || aux.None? || on.None? then None else Some(Verneed(cnt.value as nat, aux.value as nat, on.value as nat))
  {
    SliceReads(b, at);
  }

  method ReadVerneed(b: Bytes, strs: Strings, at: nat, at_: usize) returns (r: Result<seq<Version>>, next: usize)
    requires Loaded(b) && at <= |b| && strs.at + strs.size <= |b| && at_ as int <= |b| + 0x1_0000_0000
    ensures var v := VerneedAt(b, at + at_ as nat);
      && (v.None? ==> r == Err(ShortVerneed))
      && (v.Some? ==> r == Vernauxs(b, strs, at + at_ as nat + v.value.aux, v.value.cnt) && (r.Ok? ==> next as nat == v.value.next))
    ensures next < 0x1_0000_0000 && (r.Ok? ==> at_ as int <= |b|)
  {
    var t := b[at..];
    var cnt, aux, on := R16(t, at_ + 2), R32(t, at_ + 8), R32(t, at_ + 12);
    VerneedFields(b, at, at_, cnt, aux, on);
    if cnt.None? || aux.None? || on.None? {
      return Err(ShortVerneed), 0;
    }
    r := ReadVernauxs(b, strs, at, at_ + aux.value, cnt.value);
    next := on.value;
  }

  /** What reading one record comes to for the whole chain. */
  lemma VerneedsStep(b: Bytes, strs: Strings, t: nat, left: nat, out: seq<Version>, vs: Result<seq<Version>>, next: nat, whole: Result<seq<Version>>, after: nat, fewer: nat)
    requires strs.at + strs.size <= |b| && left > 0 && whole == Onto(out, Verneeds(b, strs, t, left)) && after == t + next && fewer == left - 1
    requires var v := VerneedAt(b, t);
      && (v.None? ==> vs == Err(ShortVerneed))
      && (v.Some? ==> vs == Vernauxs(b, strs, t + v.value.aux, v.value.cnt) && (vs.Ok? ==> next == v.value.next))
    ensures vs.Err? ==> whole == vs
    ensures vs.Ok? && next == 0 ==> whole == Ok(out + vs.value)
    ensures vs.Ok? && next != 0 ==> whole == Onto(out + vs.value, Verneeds(b, strs, after, fewer))
  {
    if vs.Ok? && next != 0 {
      var rest := Verneeds(b, strs, after, fewer);
      VerneedsOne(b, strs, t, left, vs, rest);
      OntoOnto(out, vs.value, rest);
    }
  }

  /** One record of the chain: the answer, if it ends here, or what there is so far. */
  method NextVerneed(b: Bytes, strs: Strings, at: nat, at_: usize, ghost t: nat, ghost left: nat, out: seq<Version>, ghost whole: Result<seq<Version>>)
    returns (answer: Option<Result<seq<Version>>>, more: seq<Version>, next: usize, ghost after: nat, ghost fewer: nat)
    requires Loaded(b) && at <= |b| && strs.at + strs.size <= |b| && at_ as int <= |b| + 0x1_0000_0000 && t == at + at_ as nat
    requires left > 0 && whole == Onto(out, Verneeds(b, strs, t, left))
    ensures answer.Some? ==> answer.value == whole
    ensures answer.None? ==> 0 < next && at_ as int + next as int <= |b| + 0x1_0000_0000 && after == t + next as nat && fewer == left - 1
    ensures answer.None? ==> whole == Onto(more, Verneeds(b, strs, after, fewer))
  {
    var vs: Result<seq<Version>>;
    vs, next := ReadVerneed(b, strs, at, at_);
    after, fewer := t + next as nat, left - 1;
    VerneedsStep(b, strs, t, left, out, vs, next as nat, whole, after, fewer);
    more := out;
    if vs.Err? {
      answer := Some(vs);
      return;
    }
    more := out + vs.value;
    answer := if next == 0 then Some(Ok(more)) else None;
  }

  method ReadVerneeds(b: Bytes, strs: Strings, at: nat, num: usize) returns (r: Result<seq<Version>>)
    requires Loaded(b) && at <= |b| && strs.at + strs.size <= |b|
    ensures r == Verneeds(b, strs, at, num as nat)
  {
    var out: seq<Version> := [];
    var at_: usize := 0;
    var left := num;
    ghost var t, fewer: nat := at, num as nat;
    ghost var whole := Verneeds(b, strs, at, num as nat);
    OntoNothing(whole);
    while left > 0
      invariant at_ as int <= |b| + 0x1_0000_0000 && t == at + at_ as nat && fewer == left as nat
      invariant whole == Onto(out, Verneeds(b, strs, t, fewer))
      decreases |b| + 0x1_0000_0000 - at_ as int
    {
      var answer, more, next;
      answer, more, next, t, fewer := NextVerneed(b, strs, at, at_, t, fewer, out, whole);
      if answer.Some? {
        return answer.value;
      }
      out, at_, left := more, at_ + next, left - 1;
    }
    assert out + [] == out;
    return Ok(out);
  }

  /** The dynamic section as parse keeps it while it reads: a list and fourteen variables. */
  datatype Dynamic = Dynamic(
    needed: seq<nat>, soname: Option<nat>, rpath: Option<nat>, runpath: Option<nat>,
    strtab: Option<nat>, strsz: Option<nat>, symtab: Option<nat>, syment: Option<nat>,
    hash: Option<nat>, gnuHash: Option<nat>, versym: Option<nat>,
    verdef: Option<nat>, verdefnum: nat, verneed: Option<nat>, verneednum: nat)

  function Summary(es: seq<Tagged>): Dynamic {
    Dynamic(Every(es, DT_NEEDED), Last(es, DT_SONAME), Last(es, DT_RPATH), Last(es, DT_RUNPATH),
            Last(es, DT_STRTAB), Last(es, DT_STRSZ), Last(es, DT_SYMTAB), Last(es, DT_SYMENT),
            Last(es, DT_HASH), Last(es, DT_GNU_HASH), Last(es, DT_VERSYM),
            Last(es, DT_VERDEF), LastOr(es, DT_VERDEFNUM, 0), Last(es, DT_VERNEED), LastOr(es, DT_VERNEEDNUM, 0))
  }

  method ReadVersions(b: Bytes, loads: seq<Load>, strs: Strings, d: Dynamic, ghost es: seq<Tagged>)
    returns (r: Result<seq<Version>>)
    requires Loaded(b) && strs.at + strs.size <= |b| && d == Summary(es) && d.verdefnum < LIMIT && d.verneednum < LIMIT
    ensures r == Versions(b, loads, strs, es)
  {
    var out: seq<Version> := [];
    if d.verdef.Some? {
      var t := OffsetOf(loads, d.verdef.value);
      if t.Err? {
        return Err(t.fault);
      }
      if t.value > |b| {
        return Err(VerdefPastFile);
      }
      var defs := ReadVerdefs(b, strs, t.value, d.verdefnum as usize);
      if defs.Err? {
        return defs;
      }
      out := defs.value;
    }
    if d.verneed.Some? {
      var t := OffsetOf(loads, d.verneed.value);
      if t.Err? {
        return Err(t.fault);
      }
      if t.value > |b| {
        return Err(VerneedPastFile);
      }
      var needs := ReadVerneeds(b, strs, t.value, d.verneednum as usize);
      if needs.Err? {
        return needs;
      }
      return Ok(out + needs.value);
    }
    assert out + [] == out;
    return Ok(out);
  }

  // ---------------------------------------------------------------------------- symbols

  method ReadSymbol(b: Bytes, strs: Strings, names: seq<Version>, t: Table, i: usize) returns (r: Result<Option<Sym>>)
    requires Loaded(b) && strs.at + strs.size <= |b| && EntryAt(t, i as nat) + 24 <= |b|
    requires 2 * i as int < LIMIT && (t.versym.Some? ==> t.versym.value <= |b|)
    ensures r == SymbolAt(b, strs, names, t, i as nat)
  {
    var e := EntryAt(t, i as nat);
    var name := U32(b, e).value;
    if name == 0 {
      return Ok(None);
    }
    var (info, size) := (b[e + 4] as nat, U64(b, e + 16).value);
    var version, isDefault := None, true;
    if t.versym.Some? {
      SliceReads(b, t.versym.value);
      var raw := R16(b[t.versym.value..], i * 2);
      if raw.None? {
        return Err(ShortVersym);
      }
      var v := VersionOf(names, raw.value as nat);
      version, isDefault := v.0, v.1;
    }
    var s := StringAt(b, strs, name);
    if s.Err? {
      return Err(s.fault);
    }
    var kind := info % 16;
    return Ok(Some(Sym(s.value, version, isDefault, info / 16 == STB_WEAK, kind == STT_OBJECT || kind == STT_TLS, size, kind)));
  }

  /** An entry's place in the table bounds its index. */
  lemma {:induction false} IndexBound(i: nat, size: nat, room: nat)
    requires size >= 24 && Area(i, size) <= room
    ensures 24 * i <= room
  {
    if i > 0 {
      IndexBound(i - 1, size, room - size);
    }
  }

  /** The table, one entry after another. */
  method ReadSymbols(b: Bytes, strs: Strings, names: seq<Version>, t: Table, n: nat) returns (r: Result<Tables>)
    requires Loaded(b) && Fits(b, strs, t, n) && (t.versym.Some? ==> t.versym.value <= |b|)
    ensures r == SymbolsUpTo(b, strs, names, t, n)
  {
    var exports: seq<Sym>, undefined: seq<Sym> := [], [];
    for i := 0 to n
      invariant Fits(b, strs, t, i)
      invariant SymbolsUpTo(b, strs, names, t, i) == Ok(Tables(exports, undefined))
    {
      AreaGrows(i + 1, n, t.entsize);
      IndexBound(i, t.entsize, |b|);
      var s := ReadSymbol(b, strs, names, t, i as usize);
      if s.Err? {
        SymbolsFail(b, strs, names, t, i + 1, n);
        return Err(s.fault);
      }
      if s.value.Some? {
        if Undefined(b, t, i) {
          undefined := undefined + [s.value.value];
        } else {
          exports := exports + [s.value.value];
        }
      }
    }
    return Ok(Tables(exports, undefined));
  }

  /** The first entry that cannot be read is the answer. */
  lemma {:induction false} SymbolsFail(b: Bytes, strs: Strings, names: seq<Version>, t: Table, i: nat, n: nat)
    requires i <= n && Fits(b, strs, t, i) && Fits(b, strs, t, n) && SymbolsUpTo(b, strs, names, t, i).Err?
    ensures SymbolsUpTo(b, strs, names, t, n) == SymbolsUpTo(b, strs, names, t, i)
    decreases n
  {
    if i < n {
      AreaGrows(n - 1, n, t.entsize);
      SymbolsFail(b, strs, names, t, i, n - 1);
    }
  }

  /** How many entries to read: what the hash counts, or what there is room for. */
  method CountSymbols(b: Bytes, loads: seq<Load>, d: Dynamic, ghost es: seq<Tagged>, start: nat, entsize: nat, end: Option<nat>)
    returns (r: Result<nat>)
    requires Loaded(b) && d == Summary(es) && entsize > 0
    ensures r == SymbolCount(b, loads, es, start, entsize, end)
  {
    r := CountOf(b, loads, d.hash, d.gnuHash);
    if r.Ok? {
      r := Ok(Max(r.value, Room(start, entsize, end)));
    }
  }

  method ReadSymbolTable(b: Bytes, loads: seq<Load>, strs: Strings, names: seq<Version>, d: Dynamic, ghost es: seq<Tagged>, end: Option<nat>)
    returns (r: Result<Tables>)
    requires Loaded(b) && strs.at + strs.size <= |b| && d == Summary(es)
    ensures r == Symbols(b, loads, strs, names, es, end)
  {
    if d.symtab.None? {
      return Ok(Tables([], []));
    }
    var entsize := if d.syment.Some? then d.syment.value else 24;
    if entsize < 24 {
      return Err(SmallSymbols);
    }
    var start := OffsetOf(loads, d.symtab.value);
    if start.Err? {
      return Err(start.fault);
    }
    var n := CountSymbols(b, loads, d, es, start.value, entsize, end);
    if n.Err? {
      return Err(n.fault);
    }
    AreaIs(n.value, entsize);
    if start.value > |b| || n.value * entsize >= LIMIT || start.value + n.value * entsize > |b| {
      return Err(SymbolsPastFile);
    }
    var t := Table(start.value, entsize, None);
    if d.versym.Some? {
      var v := OffsetOf(loads, d.versym.value);
      if v.Err? {
        return Err(v.fault);
      }
      if v.value > |b| {
        return Err(VersymPastFile);
      }
      t := t.(versym := Some(v.value));
    }
    r := ReadSymbols(b, strs, names, t, n.value);
  }

  // ------------------------------------------------------------------------------ parse

  lemma {:induction false} AreaBound(i: nat, n: nat, size: nat)
    requires i <= n < 0x1_0000 && size < 0x1_0000
    ensures Area(i, size) == i * size <= 0x1_0000 * i
    decreases i
  {
    AreaIs(i, size);
    if i > 0 {
      AreaBound(i - 1, n, size);
    }
  }

  /** One more header read. */
  lemma HeadersStep(b: Bytes, start: nat, size: nat, left: nat, h: Headers)
    requires size >= 56 && left > 0 && start < LIMIT && start + size <= |b|
    ensures ReadHeaders(b, start, size, left, h) == ReadHeaders(b, start + size, size, left - 1, AddSegment(h, SegmentAt(b, start)))
  {
  }

  /** The program headers; where one starts is the only sum that could wrap, and it is checked. */
  method ReadProgramHeaders(b: Bytes, phoff: usize, phentsize: usize, phnum: usize) returns (r: Result<Headers>)
    requires Loaded(b) && 56 <= phentsize < 0x1_0000 && phnum < 0x1_0000
    ensures r == ReadHeaders(b, phoff as nat, phentsize as nat, phnum as nat, Headers([], None, false))
  {
    var h := Headers([], None, false);
    ghost var from, size, left: nat := phoff as nat, phentsize as nat, phnum as nat;
    ghost var whole := ReadHeaders(b, from, size, left, h);
    var i: usize := 0;
    while i < phnum
      invariant i <= phnum && left == phnum as nat - i as nat && from == phoff as nat + Area(i as nat, size)
      invariant whole == ReadHeaders(b, from, size, left, h)
    {
      AreaBound(i as nat, phnum as nat, size);
      var past: usize := i * phentsize;
      if phoff as int + past as int >= LIMIT {
        return Err(HeadersPastMemory);
      }
      var start := phoff + past;
      if start as int + phentsize as int > |b| {
        return Err(HeadersPastFile);
      }
      HeadersStep(b, from, size, left, h);
      h := AddSegment(h, SegmentAt(b, start as nat));
      i, from, left := i + 1, from + size, left - 1;
    }
    return Ok(h);
  }

  lemma LastStep(seen: seq<Tagged>, e: Tagged, tag: nat)
    ensures Last(seen + [e], tag) == if e.tag == tag then Some(e.val) else Last(seen, tag)
  {
    assert (seen + [e])[..|seen|] == seen;
  }

  lemma EveryStep(seen: seq<Tagged>, e: Tagged, tag: nat)
    ensures Every(seen + [e], tag) == if e.tag == tag then Every(seen, tag) + [e.val] else Every(seen, tag)
  {
    assert (seen + [e])[..|seen|] == seen;
  }

  /** One entry's place among the variables. */
  function TakeEntry(d: Dynamic, e: Tagged): Dynamic {
    if e.tag == DT_NEEDED then d.(needed := d.needed + [e.val])
    else if e.tag == DT_SONAME then d.(soname := Some(e.val))
    else if e.tag == DT_RPATH then d.(rpath := Some(e.val))
    else if e.tag == DT_RUNPATH then d.(runpath := Some(e.val))
    else if e.tag == DT_STRTAB then d.(strtab := Some(e.val))
    else if e.tag == DT_STRSZ then d.(strsz := Some(e.val))
    else if e.tag == DT_SYMTAB then d.(symtab := Some(e.val))
    else if e.tag == DT_SYMENT then d.(syment := Some(e.val))
    else if e.tag == DT_HASH then d.(hash := Some(e.val))
    else if e.tag == DT_GNU_HASH then d.(gnuHash := Some(e.val))
    else if e.tag == DT_VERSYM then d.(versym := Some(e.val))
    else if e.tag == DT_VERDEF then d.(verdef := Some(e.val))
    else if e.tag == DT_VERDEFNUM then d.(verdefnum := e.val)
    else if e.tag == DT_VERNEED then d.(verneed := Some(e.val))
    else if e.tag == DT_VERNEEDNUM then d.(verneednum := e.val)
    else d
  }

  lemma TakeSummary(seen: seq<Tagged>, e: Tagged)
    ensures Summary(seen + [e]) == TakeEntry(Summary(seen), e)
  {
    EveryStep(seen, e, DT_NEEDED);
    LastStep(seen, e, DT_SONAME);
    LastStep(seen, e, DT_RPATH);
    LastStep(seen, e, DT_RUNPATH);
    LastStep(seen, e, DT_STRTAB);
    LastStep(seen, e, DT_STRSZ);
    LastStep(seen, e, DT_SYMTAB);
    LastStep(seen, e, DT_SYMENT);
    LastStep(seen, e, DT_HASH);
    LastStep(seen, e, DT_GNU_HASH);
    LastStep(seen, e, DT_VERSYM);
    LastStep(seen, e, DT_VERDEF);
    LastStep(seen, e, DT_VERDEFNUM);
    LastStep(seen, e, DT_VERNEED);
    LastStep(seen, e, DT_VERNEEDNUM);
  }

  /** Dynamic entry `i`, and what reading it says about the whole section. */
  method NextEntry(b: Bytes, dynoff: nat, n: nat, i: nat, ghost seen: seq<Tagged>) returns (e: Tagged)
    requires i < n && dynoff + 16 * n <= |b|
    requires Entries(b, dynoff, n) == seen + Entries(b, dynoff + 16 * i, n - i)
    ensures e.tag == DT_NULL ==> Entries(b, dynoff, n) == seen
    ensures e.tag != DT_NULL ==> Entries(b, dynoff, n) == (seen + [e]) + Entries(b, dynoff + 16 * (i + 1), n - (i + 1))
    ensures e.val < LIMIT
  {
    e := Tagged(U64(b, dynoff + 16 * i).value, U64(b, dynoff + 16 * i + 8).value);
    ghost var rest := Entries(b, dynoff + 16 * (i + 1), n - (i + 1));
    assert seen + [] == seen;
    assert seen + ([e] + rest) == (seen + [e]) + rest;
  }

  /** The entries seen so far, what they come to, and the rest of the section. */
  ghost predicate Summed(b: Bytes, dynoff: nat, n: nat, i: nat, seen: seq<Tagged>, d: Dynamic)
    requires i <= n && dynoff + 16 * n <= |b|
  {
    && d == Summary(seen) && d.verdefnum < LIMIT && d.verneednum < LIMIT
    && Entries(b, dynoff, n) == seen + Entries(b, dynoff + 16 * i, n - i)
  }

  lemma SummedNext(b: Bytes, dynoff: nat, n: nat, i: nat, seen: seq<Tagged>, d: Dynamic, e: Tagged)
    requires i < n && dynoff + 16 * n <= |b| && Summed(b, dynoff, n, i, seen, d) && e.val < LIMIT
    requires Entries(b, dynoff, n) == (seen + [e]) + Entries(b, dynoff + 16 * (i + 1), n - (i + 1))
    ensures Summed(b, dynoff, n, i + 1, seen + [e], TakeEntry(d, e))
  {
    TakeSummary(seen, e);
  }

  lemma SummedDone(b: Bytes, dynoff: nat, n: nat, seen: seq<Tagged>, d: Dynamic)
    requires dynoff + 16 * n <= |b| && Summed(b, dynoff, n, n, seen, d)
    ensures Entries(b, dynoff, n) == seen
  {
    assert seen + [] == seen;
  }

  method ReadEntries(b: Bytes, dynoff: nat, n: nat) returns (d: Dynamic)
    requires dynoff + 16 * n <= |b|
    ensures d == Summary(Entries(b, dynoff, n)) && d.verdefnum < LIMIT && d.verneednum < LIMIT
  {
    ghost var seen: seq<Tagged> := [];
    d := Dynamic([], None, None, None, None, None, None, None, None, None, None, None, 0, None, 0);
    var i := 0;
    assert seen + Entries(b, dynoff, n) == Entries(b, dynoff, n);
    while i < n
      invariant i <= n && Summed(b, dynoff, n, i, seen, d)
    {
      var e := NextEntry(b, dynoff, n, i, seen);
      if e.tag == DT_NULL {
        return d;
      }
      SummedNext(b, dynoff, n, i, seen, d, e);
      d, seen, i := TakeEntry(d, e), seen + [e], i + 1;
    }
    SummedDone(b, dynoff, n, seen, d);
  }

  method ReadTablesOf(b: Bytes, loads: seq<Load>, strs: Strings, d: Dynamic, ghost es: seq<Tagged>, end: Option<nat>, interp: bool)
    returns (r: Result<Elf>)
    requires Loaded(b) && strs.at + strs.size <= |b| && d == Summary(es) && d.verdefnum < LIMIT && d.verneednum < LIMIT
    ensures r == ReadTables(b, loads, strs, es, end, interp)
  {
    var names := ReadVersions(b, loads, strs, d, es);
    if names.Err? {
      return Err(names.fault);
    }
    var tables := ReadSymbolTable(b, loads, strs, names.value, d, es, end);
    if tables.Err? {
      return Err(tables.fault);
    }
    var soname := OptionalString(b, strs, d.soname);
    if soname.Err? {
      return Err(soname.fault);
    }
    var needed := StringsAt(b, strs, d.needed);
    if needed.Err? {
      return Err(needed.fault);
    }
    var rpath := OptionalString(b, strs, d.rpath);
    if rpath.Err? {
      return Err(rpath.fault);
    }
    var runpath := OptionalString(b, strs, d.runpath);
    if runpath.Err? {
      return Err(runpath.fault);
    }
    return Ok(Elf(soname.value, needed.value, rpath.value, runpath.value, tables.value.exports, tables.value.undefined, d.verdef.Some?, interp));
  }

  function NeighboursOf(d: Dynamic): seq<nat> {
    Listed(d.strtab) + Listed(d.versym) + Listed(d.verdef) + Listed(d.verneed) + Listed(d.hash) + Listed(d.gnuHash)
  }

  method ReadDynamicOf(b: Bytes, h: Headers, d: Dynamic, ghost es: seq<Tagged>) returns (r: Result<Elf>)
    requires Loaded(b) && d == Summary(es) && d.verdefnum < LIMIT && d.verneednum < LIMIT
    ensures r == ReadDynamic(b, h, es)
  {
    if d.needed == [] && d.soname.None? && d.rpath.None? && d.runpath.None? && d.symtab.None? {
      return Ok(NOTHING);
    }
    if d.strtab.None? {
      return Err(NoStringTable);
    }
    var strtab := OffsetOf(h.loads, d.strtab.value);
    if strtab.Err? {
      return Err(strtab.fault);
    }
    var above := if d.symtab.Some? then LeastAbove(NeighboursOf(d), d.symtab.value) else None;
    var end: Option<nat> := None;
    if above.Some? {
      var off := OffsetOf(h.loads, above.value);
      if off.Err? {
        return Err(off.fault);
      }
      end := Some(off.value);
    }
    if d.strsz.None? {
      return Err(NoStringSize);
    }
    if strtab.value + d.strsz.value > |b| {
      return Err(StringsPastFile);
    }
    r := ReadTablesOf(b, h.loads, Strings(strtab.value, d.strsz.value), d, es, end, h.interp);
  }

  method ReadBodyOf(b: Bytes, h: Headers) returns (r: Result<Elf>)
    requires Loaded(b)
    ensures r == ReadBody(b, h)
  {
    if h.dynamic.None? {
      return Ok(NOTHING);
    }
    var (dynoff, dynsz) := h.dynamic.value;
    if dynoff + dynsz > |b| {
      return Err(DynamicPastFile);
    }
    var d := ReadEntries(b, dynoff, dynsz / 16);
    r := ReadDynamicOf(b, h, d, Entries(b, dynoff, dynsz / 16));
  }

  /** `parse`: it always comes to an answer, and to the one the file's bytes spell. */
  method ParseFile(b: Bytes) returns (r: Result<Elf>)
    requires Loaded(b)
    ensures r == Parse(b)
  {
    if !StartsElf(b) {
      return Err(NotElf);
    }
    if |b| <= 4 || b[4] != 2 {
      return Err(Not64Bit);
    }
    if |b| <= 5 || b[5] != 1 {
      return Err(NotLittleEndian);
    }
    if U16(b, 18) != Some(EM_X86_64) {
      return Err(NotX86);
    }
    var phoff, phentsize, phnum := R64(b, 32), R16(b, 54), R16(b, 56);
    if phoff.None? || phentsize.None? || phnum.None? {
      return Err(TruncatedHeader);
    }
    if phnum.value == 0 {
      return Ok(NOTHING);
    }
    if phnum.value == 0xffff {
      return Err(TooManyHeaders);
    }
    if phentsize.value < 56 {
      return Err(SmallHeader);
    }
    var h := ReadProgramHeaders(b, phoff.value, phentsize.value, phnum.value);
    if h.Err? {
      return Err(h.fault);
    }
    r := ReadBodyOf(b, h.value);
  }
}
