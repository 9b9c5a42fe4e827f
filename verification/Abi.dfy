/** The differences from one build of a library to the next: `compare` and `class` in elf.rs. */
module Abi {
  import opened Paths
  import opened Disk
  import opened Elf
  import opened Order

  datatype Change =
    | Gone(key: Name)
    | Weakened(key: Name)
    | Grew(key: Name)
    | Retyped(key: Name)
    | Undefaulted(key: Name)

  /** The ways of getting at a symbol that code compiled against it can use. */
  datatype Class = Data | ThreadLocal | Code

  function ClassOf(kind: nat): Option<Class> {
    if kind == STT_OBJECT then Some(Data)
    else if kind == STT_TLS then Some(ThreadLocal)
    else if kind == STT_FUNC || kind == STT_GNU_IFUNC then Some(Code)
    else None
  }

  const AT_SIGN: Byte := 64

  /** The version belongs to the key where the loader goes by it, and not elsewhere. */
  function KeyOf(s: Sym, versions: bool): Name {
    if versions && s.version.Some? then s.name + [AT_SIGN] + s.version.value else s.name
  }

  predicate Keyed(syms: seq<Sym>, versions: bool, k: Name) {
    exists s <- syms :: KeyOf(s, versions) == k
  }

  ghost predicate UniqueKeys(syms: seq<Sym>, versions: bool) {
    forall i, j :: 0 <= i < j < |syms| ==> KeyOf(syms[i], versions) != KeyOf(syms[j], versions)
  }

  function If(c: bool, change: Change): seq<Change> {
    if c then [change] else []
  }

  predicate Reclassed(a: nat, b: nat) {
    ClassOf(a).Some? && ClassOf(b).Some? && ClassOf(a) != ClassOf(b)
  }

  /** What one symbol's change comes to, when it is still there. */
  function Between(was: Sym, now: Sym, k: Name, versions: bool): seq<Change> {
    If(!was.weak && now.weak, Weakened(k))
    + If(was.isObject && now.isObject && was.size != now.size, Grew(k))
    + If(Reclassed(was.kind, now.kind), Retyped(k))
    + If(versions && was.isDefault && !now.isDefault, Undefaulted(k))
  }

  // -------------------------------------------------------------------------- the order

  predicate ByteLess(a: Byte, b: Byte) {
    a < b
  }

  /** Text is compared byte by byte, a prefix first. */
  predicate Less(a: Name, b: Name) {
    Lex(ByteLess, a, b)
  }

  lemma LessTotal(a: Name, b: Name)
    ensures Less(a, b) || a == b || Less(b, a)
    ensures Less(a, b) ==> a != b && !Less(b, a)
  {
    LexTotal(ByteLess, a, b);
  }

  lemma LessAtMost(a: Name, b: Name, k: Name)
    requires !Less(b, a) && Less(b, k)
    ensures Less(a, k)
  {
    LessTotal(a, b);
    if a != b { LexTransitive(ByteLess, a, b, k); }
  }

  lemma LessAtLeast(k: Name, b: Name, a: Name)
    requires !Less(a, b) && Less(k, b)
    ensures Less(k, a)
  {
    LessTotal(a, b);
    if a != b { LexTransitive(ByteLess, k, b, a); }
  }

  datatype Pair = Pair(key: Name, sym: Sym)

  function Pairs(syms: seq<Sym>, versions: bool): (ps: seq<Pair>)
    ensures |ps| == |syms|
  {
    seq(|syms|, i requires 0 <= i < |syms| => Pair(KeyOf(syms[i], versions), syms[i]))
  }

  predicate KeyBefore(p: Pair, q: Pair) {
    Less(p.key, q.key)
  }

  lemma KeysWeak()
    ensures Weak(KeyBefore)
  {
    forall p, q | KeyBefore(p, q) ensures !KeyBefore(q, p) {
      LessTotal(p.key, q.key);
    }
    forall p, q, r | !KeyBefore(q, p) && !KeyBefore(r, q) ensures !KeyBefore(r, p) {
      LessTotal(q.key, r.key);
      if Less(r.key, p.key) { LessAtMost(q.key, r.key, p.key); }
    }
  }

  /** `None` only when no pair has the key; which of several it finds is left open. */
  method Search(ps: seq<Pair>, k: Name) returns (r: Option<nat>)
    requires Ordered(KeyBefore, ps)
    ensures r.Some? ==> r.value < |ps| && ps[r.value].key == k
    ensures r.None? ==> forall i :: 0 <= i < |ps| ==> ps[i].key != k
  {
    var lo, hi := 0, |ps|;
    while lo < hi
      invariant 0 <= lo <= hi <= |ps|
      invariant forall i :: 0 <= i < lo ==> Less(ps[i].key, k)
      invariant forall i :: hi <= i < |ps| ==> Less(k, ps[i].key)
    {
      var mid := (lo + hi) / 2;
      if ps[mid].key == k {
        return Some(mid);
      }
      LessTotal(ps[mid].key, k);
      if Less(ps[mid].key, k) {
        forall i | lo <= i <= mid ensures Less(ps[i].key, k) {
          LessTotal(ps[i].key, ps[mid].key);
          assert i < mid ==> !KeyBefore(ps[mid], ps[i]);
          LessAtMost(ps[i].key, ps[mid].key, k);
        }
        lo := mid + 1;
      } else {
        forall i | mid <= i < hi ensures Less(k, ps[i].key) {
          LessTotal(ps[i].key, ps[mid].key);
          assert mid < i ==> !KeyBefore(ps[i], ps[mid]);
          LessAtLeast(k, ps[mid].key, ps[i].key);
        }
        hi := mid;
      }
    }
    forall i | 0 <= i < |ps| ensures ps[i].key != k {
      LessTotal(ps[i].key, k);
    }
    return None;
  }

  // ------------------------------------------------------------------------- comparison

  /** What an old symbol was compared with: some new one of its key, or nothing when there is
      none. */
  ghost predicate Picked(was: Sym, after: seq<Sym>, versions: bool, pick: Option<Sym>) {
    match pick
    case None => !Keyed(after, versions, KeyOf(was, versions))
    case Some(s) => s in after && KeyOf(s, versions) == KeyOf(was, versions)
  }

  function ChangesOf(was: Sym, pick: Option<Sym>, versions: bool): seq<Change> {
    var k := KeyOf(was, versions);
    match pick
    case None => [Gone(k)]
    case Some(now) => Between(was, now, k, versions)
  }

  ghost predicate AllPicked(before: seq<Sym>, after: seq<Sym>, versions: bool, picks: seq<Option<Sym>>) {
    |picks| == |before| && forall i :: 0 <= i < |before| ==> Picked(before[i], after, versions, picks[i])
  }

  function Changes(before: seq<Sym>, picks: seq<Option<Sym>>, versions: bool): seq<Change>
    requires |picks| == |before|
    decreases |before|
  {
    if before == [] then []
    else Changes(before[..|before| - 1], picks[..|before| - 1], versions) + ChangesOf(before[|before| - 1], picks[|before| - 1], versions)
  }

  /** What the first `n` old symbols come to, with these found for them. */
  ghost predicate Through(before: seq<Sym>, after: seq<Sym>, versions: bool, n: nat, picks: seq<Option<Sym>>, out: seq<Change>)
    requires n <= |before|
  {
    AllPicked(before[..n], after, versions, picks) && out == Changes(before[..n], picks, versions)
  }

  lemma PickedGrow(before: seq<Sym>, after: seq<Sym>, versions: bool, n: nat, picks: seq<Option<Sym>>, out: seq<Change>, pick: Option<Sym>)
    requires n < |before| && Through(before, after, versions, n, picks, out) && Picked(before[n], after, versions, pick)
    ensures Through(before, after, versions, n + 1, picks + [pick], out + ChangesOf(before[n], pick, versions))
  {
    var front, all, more := before[..n], before[..n + 1], picks + [pick];
    assert all[..n] == front && more[..n] == picks;
    forall i | 0 <= i < |all| ensures Picked(all[i], after, versions, more[i]) {
      assert i < n ==> all[i] == front[i] && more[i] == picks[i];
    }
  }

  /** The pairs are the new symbols with their keys, in another order. */
  lemma PairsPermuted(after: seq<Sym>, versions: bool, now: seq<Pair>)
    requires multiset(now) == multiset(Pairs(after, versions))
    ensures forall p :: p in now ==> p.sym in after && p.key == KeyOf(p.sym, versions)
    ensures forall s :: s in after ==> Pair(KeyOf(s, versions), s) in now
  {
    var ps := Pairs(after, versions);
    forall p | p in now ensures p.sym in after && p.key == KeyOf(p.sym, versions) {
      assert p in multiset(ps);
    }
    forall s | s in after ensures Pair(KeyOf(s, versions), s) in now {
      var i :| 0 <= i < |after| && after[i] == s;
      assert ps[i] == Pair(KeyOf(s, versions), s);
      assert Pair(KeyOf(s, versions), s) in multiset(now);
    }
  }

  /** One old symbol against the sorted new ones. */
  method CompareOne(was: Sym, now: seq<Pair>, versions: bool, ghost after: seq<Sym>) returns (out: seq<Change>, ghost pick: Option<Sym>)
    requires Ordered(KeyBefore, now) && multiset(now) == multiset(Pairs(after, versions))
    ensures Picked(was, after, versions, pick) && out == ChangesOf(was, pick, versions)
  {
    PairsPermuted(after, versions, now);
    var k := KeyOf(was, versions);
    var at := Search(now, k);
    if at.None? {
      return [Gone(k)], None;
    }
    var s := now[at.value].sym;
    pick := Some(s);
    out := [];
    if !was.weak && s.weak {
      out := out + [Weakened(k)];
    }
    if was.isObject && s.isObject && was.size != s.size {
      out := out + [Grew(k)];
    }
    if Reclassed(was.kind, s.kind) {
      out := out + [Retyped(k)];
    }
    if versions && was.isDefault && !s.isDefault {
      out := out + [Undefaulted(k)];
    }
  }

  /** Every old symbol in turn. */
  method CompareEach(before: seq<Sym>, now: seq<Pair>, versions: bool, ghost after: seq<Sym>)
    returns (out: seq<Change>, ghost picks: seq<Option<Sym>>)
    requires Ordered(KeyBefore, now) && multiset(now) == multiset(Pairs(after, versions))
    ensures AllPicked(before, after, versions, picks) && out == Changes(before, picks, versions)
  {
    picks, out := [], [];
    for i := 0 to |before|
      invariant Through(before, after, versions, i, picks, out)
    {
      var more, pick := CompareOne(before[i], now, versions, after);
      PickedGrow(before, after, versions, i, picks, out, pick);
      out, picks := out + more, picks + [pick];
    }
    assert before[..|before|] == before;
  }

  method Compare(before: seq<Sym>, after: seq<Sym>, versions: bool) returns (out: seq<Change>)
    ensures exists picks :: AllPicked(before, after, versions, picks) && out == Changes(before, picks, versions)
    ensures UniqueKeys(after, versions) ==> out == Naive(before, after, versions)
    ensures forall k :: Gone(k) in out <==> Keyed(before, versions, k) && !Keyed(after, versions, k)
  {
    var now := Sort(KeyBefore, Pairs(after, versions));
    KeysWeak();
    SortHolds(KeyBefore, Pairs(after, versions));
    ghost var picks;
    out, picks := CompareEach(before, now, versions, after);
    ComparisonMeans(before, after, versions, picks);
  }

  // -------------------------------------------------------------------------------- laws

  lemma GoneOne(was: Sym, after: seq<Sym>, versions: bool, pick: Option<Sym>, k: Name)
    requires Picked(was, after, versions, pick)
    ensures Gone(k) in ChangesOf(was, pick, versions) <==> KeyOf(was, versions) == k && !Keyed(after, versions, k)
  {
  }

  lemma KeyedMore(syms: seq<Sym>, s: Sym, versions: bool, k: Name)
    ensures Keyed(syms + [s], versions, k) <==> Keyed(syms, versions, k) || KeyOf(s, versions) == k
  {
    assert s in syms + [s];
    if Keyed(syms, versions, k) {
      var o :| o in syms && KeyOf(o, versions) == k;
      assert o in syms + [s];
    }
  }

  /** A symbol is reported gone exactly when its key is; unique or not, whatever the search
      finds. */
  lemma {:induction false} GoneExactly(before: seq<Sym>, after: seq<Sym>, versions: bool, picks: seq<Option<Sym>>, k: Name)
    requires AllPicked(before, after, versions, picks)
    ensures Gone(k) in Changes(before, picks, versions) <==> Keyed(before, versions, k) && !Keyed(after, versions, k)
    decreases |before|
  {
    if before != [] {
      var n := |before| - 1;
      GoneExactly(before[..n], after, versions, picks[..n], k);
      GoneOne(before[n], after, versions, picks[n], k);
      KeyedMore(before[..n], before[n], versions, k);
      assert before == before[..n] + [before[n]];
    }
  }

  /** The new symbol of a key, by looking at one after another. */
  function Lookup(after: seq<Sym>, versions: bool, k: Name): Option<Sym> {
    if after == [] then None
    else if KeyOf(after[0], versions) == k then Some(after[0])
    else Lookup(after[1..], versions, k)
  }

  /** The comparison by its meaning: every old symbol against the new one of its key. */
  function Naive(before: seq<Sym>, after: seq<Sym>, versions: bool): seq<Change> {
    if before == [] then []
    else
      var was := before[|before| - 1];
      Naive(before[..|before| - 1], after, versions) + ChangesOf(was, Lookup(after, versions, KeyOf(was, versions)), versions)
  }

  lemma {:induction false} LookupPicks(was: Sym, after: seq<Sym>, versions: bool, pick: Option<Sym>)
    requires UniqueKeys(after, versions) && Picked(was, after, versions, pick)
    ensures pick == Lookup(after, versions, KeyOf(was, versions))
    decreases |after|
  {
    if after != [] {
      assert after == [after[0]] + after[1..];
      if KeyOf(after[0], versions) == KeyOf(was, versions) {
        assert after[0] in after;
      } else {
        LookupPicks(was, after[1..], versions, pick);
      }
    }
  }

  lemma {:induction false} UniquePicks(before: seq<Sym>, after: seq<Sym>, versions: bool, picks: seq<Option<Sym>>)
    requires UniqueKeys(after, versions) && AllPicked(before, after, versions, picks)
    ensures Changes(before, picks, versions) == Naive(before, after, versions)
    decreases |before|
  {
    if before != [] {
      var n := |before| - 1;
      LookupPicks(before[n], after, versions, picks[n]);
      UniquePicks(before[..n], after, versions, picks[..n]);
    }
  }

  lemma ComparisonMeans(before: seq<Sym>, after: seq<Sym>, versions: bool, picks: seq<Option<Sym>>)
    requires AllPicked(before, after, versions, picks)
    ensures UniqueKeys(after, versions) ==> Changes(before, picks, versions) == Naive(before, after, versions)
    ensures forall k :: Gone(k) in Changes(before, picks, versions) <==> Keyed(before, versions, k) && !Keyed(after, versions, k)
  {
    forall k ensures Gone(k) in Changes(before, picks, versions) <==> Keyed(before, versions, k) && !Keyed(after, versions, k) {
      GoneExactly(before, after, versions, picks, k);
    }
    if UniqueKeys(after, versions) {
      UniquePicks(before, after, versions, picks);
    }
  }

  /** Nothing changed, symbol by symbol. */
  ghost predicate Unchanged(was: Sym, after: seq<Sym>, versions: bool) {
    ChangesOf(was, Lookup(after, versions, KeyOf(was, versions)), versions) == []
  }

  lemma ConcatEmpty<T>(a: seq<T>, b: seq<T>)
    ensures a + b == [] <==> a == [] && b == []
  {
    assert |a + b| == |a| + |b|;
  }

  lemma UnchangedFront(before: seq<Sym>, after: seq<Sym>, versions: bool, n: nat)
    requires |before| == n + 1
    ensures (forall s :: s in before ==> Unchanged(s, after, versions)) <==>
      (forall s :: s in before[..n] ==> Unchanged(s, after, versions)) && Unchanged(before[n], after, versions)
  {
    assert forall s :: s in before <==> s in before[..n] || s == before[n];
  }

  lemma {:induction false} NaiveEmpty(before: seq<Sym>, after: seq<Sym>, versions: bool)
    ensures Naive(before, after, versions) == [] <==> forall s :: s in before ==> Unchanged(s, after, versions)
    decreases |before|
  {
    if before != [] {
      var n: nat := |before| - 1;
      var was := before[n];
      NaiveEmpty(before[..n], after, versions);
      ConcatEmpty(Naive(before[..n], after, versions), ChangesOf(was, Lookup(after, versions, KeyOf(was, versions)), versions));
      UnchangedFront(before, after, versions, n);
    }
  }

  lemma {:induction false} LookupFinds(after: seq<Sym>, versions: bool, k: Name)
    ensures var r := Lookup(after, versions, k);
      (r.Some? <==> Keyed(after, versions, k)) && (r.Some? ==> r.value in after && KeyOf(r.value, versions) == k)
  {
    if after != [] {
      LookupFinds(after[1..], versions, k);
      assert after == [after[0]] + after[1..];
    }
  }

  /** The `i`th of the old symbols comes to no change. */
  ghost predicate Quiet(before: seq<Sym>, picks: seq<Option<Sym>>, versions: bool, i: nat)
    requires i < |before| == |picks|
  {
    ChangesOf(before[i], picks[i], versions) == []
  }

  lemma QuietFront(before: seq<Sym>, picks: seq<Option<Sym>>, versions: bool, n: nat)
    requires |before| == |picks| == n + 1
    ensures (forall i :: 0 <= i < n + 1 ==> Quiet(before, picks, versions, i)) <==>
      (forall i :: 0 <= i < n ==> Quiet(before[..n], picks[..n], versions, i)) && Quiet(before, picks, versions, n)
  {
    assert forall i :: 0 <= i < n ==> (Quiet(before[..n], picks[..n], versions, i) <==> Quiet(before, picks, versions, i));
  }

  lemma {:induction false} ChangesEmpty(before: seq<Sym>, picks: seq<Option<Sym>>, versions: bool)
    requires |picks| == |before|
    ensures Changes(before, picks, versions) == [] <==> forall i :: 0 <= i < |before| ==> Quiet(before, picks, versions, i)
    decreases |before|
  {
    if before != [] {
      var n: nat := |before| - 1;
      ChangesEmpty(before[..n], picks[..n], versions);
      ConcatEmpty(Changes(before[..n], picks[..n], versions), ChangesOf(before[n], picks[n], versions));
      QuietFront(before, picks, versions, n);
    }
  }

  /** Symbols of one key are the same to a caller, whichever is compared with whichever. */
  ghost predicate Twins(x: seq<Sym>, versions: bool) {
    forall i, j :: 0 <= i < |x| && 0 <= j < |x| && KeyOf(x[i], versions) == KeyOf(x[j], versions) ==>
      Between(x[i], x[j], KeyOf(x[i], versions), versions) == []
  }

  /** A build compared with itself comes out unchanged, whatever the search finds, exactly when
      symbols of one key are the same to a caller. */
  lemma SelfCompared(x: seq<Sym>, versions: bool)
    ensures (forall picks :: AllPicked(x, x, versions, picks) ==> Changes(x, picks, versions) == []) <==> Twins(x, versions)
  {
    if Twins(x, versions) {
      forall picks | AllPicked(x, x, versions, picks) ensures Changes(x, picks, versions) == [] {
        forall i | 0 <= i < |x| ensures Quiet(x, picks, versions, i) {
          TwinUnchanged(x, versions, i, picks[i]);
        }
        ChangesEmpty(x, picks, versions);
      }
    } else {
      var i, j :| 0 <= i < |x| && 0 <= j < |x| && KeyOf(x[i], versions) == KeyOf(x[j], versions)
        && Between(x[i], x[j], KeyOf(x[i], versions), versions) != [];
      var picks := OtherPicked(x, versions, i, j);
      assert !Quiet(x, picks, versions, i);
      ChangesEmpty(x, picks, versions);
    }
  }

  lemma TwinUnchanged(x: seq<Sym>, versions: bool, i: nat, pick: Option<Sym>)
    requires Twins(x, versions) && i < |x| && Picked(x[i], x, versions, pick)
    ensures ChangesOf(x[i], pick, versions) == []
  {
    assert x[i] in x;
    assert pick.Some?;
    var j :| 0 <= j < |x| && x[j] == pick.value;
  }

  /** A search that finds another symbol of the key for one, and each of the rest itself. */
  lemma OtherPicked(x: seq<Sym>, versions: bool, i: nat, j: nat) returns (picks: seq<Option<Sym>>)
    requires i < |x| && j < |x| && KeyOf(x[i], versions) == KeyOf(x[j], versions)
    ensures AllPicked(x, x, versions, picks) && picks[i] == Some(x[j])
  {
    picks := seq(|x|, n requires 0 <= n < |x| => Some(if n == i then x[j] else x[n]));
    forall n | 0 <= n < |x| ensures Picked(x[n], x, versions, picks[n]) {
      assert x[n] in x && x[j] in x;
    }
  }

  /** With unique keys that is so, and the naive comparison finds nothing. */
  lemma SelfUnchanged(x: seq<Sym>, versions: bool)
    requires UniqueKeys(x, versions)
    ensures Naive(x, x, versions) == []
  {
    forall s | s in x ensures Unchanged(s, x, versions) {
      LookupPicks(s, x, versions, Some(s));
    }
    NaiveEmpty(x, x, versions);
  }

  /** Every symbol states what it is. */
  predicate Typed(s: Sym) {
    ClassOf(s.kind).Some?
  }

  /** A symbol is an object when its kind says so. */
  predicate Agrees(s: Sym) {
    s.isObject == (s.kind == STT_OBJECT || s.kind == STT_TLS)
  }

  lemma PairUnchanged(a: Sym, b: Sym, c: Sym, versions: bool, k: Name)
    requires Between(a, b, k, versions) == [] && Between(b, c, k, versions) == []
    requires Typed(b) && Agrees(a) && Agrees(b)
    ensures Between(a, c, k, versions) == []
  {
  }

  /** Two steps that break nothing break nothing together, when the build in the middle states
      what its symbols are. */
  lemma Transitive(a: seq<Sym>, b: seq<Sym>, c: seq<Sym>, versions: bool)
    requires Naive(a, b, versions) == [] && Naive(b, c, versions) == []
    requires forall s :: s in b ==> Typed(s)
    requires forall s :: s in a + b ==> Agrees(s)
    ensures Naive(a, c, versions) == []
  {
    NaiveEmpty(a, b, versions);
    NaiveEmpty(b, c, versions);
    forall s | s in a ensures Unchanged(s, c, versions) {
      var k := KeyOf(s, versions);
      LookupFinds(b, versions, k);
      assert Unchanged(s, b, versions);
      var m := Lookup(b, versions, k).value;
      assert Unchanged(m, c, versions);
      PairUnchanged(s, m, Lookup(c, versions, k).value, versions, k);
    }
    NaiveEmpty(a, c, versions);
  }

  /** A symbol that states nothing, turned into a function before and an object after. */
  lemma UntypedBetween(s: Sym, k: Name, versions: bool)
    requires !Typed(s) && Agrees(s)
    ensures var (f, o) := (s.(kind := STT_FUNC), s.(kind := STT_OBJECT, isObject := true));
      && Agrees(f) && KeyOf(f, versions) == KeyOf(o, versions) == KeyOf(s, versions)
      && Between(f, s, k, versions) == [] && Between(s, o, k, versions) == [] && Between(f, o, k, versions) != []
  {
  }

  lemma SameUnchanged(s: Sym, k: Name, versions: bool)
    ensures Between(s, s, k, versions) == []
  {
  }

  /** Where the middle build has an untyped symbol, two comparisons without changes fail to
      compose. */
  lemma UntypedBreaks(b: seq<Sym>, versions: bool, i: nat) returns (a: seq<Sym>, c: seq<Sym>)
    requires UniqueKeys(b, versions) && i < |b| && !Typed(b[i]) && Agrees(b[i])
    ensures (forall s :: s in a ==> Agrees(s)) && Naive(a, b, versions) == [] && Naive(b, c, versions) == [] && Naive(a, c, versions) != []
  {
    var s := b[i];
    var f, o, k := s.(kind := STT_FUNC), s.(kind := STT_OBJECT, isObject := true), KeyOf(s, versions);
    UntypedBetween(s, k, versions);
    a, c := [f], b[i := o];
    forall m, n | 0 <= m < n < |c| ensures KeyOf(c[m], versions) != KeyOf(c[n], versions) {
      assert KeyOf(c[m], versions) == KeyOf(b[m], versions) && KeyOf(c[n], versions) == KeyOf(b[n], versions);
    }
    assert s in b && c[i] == o && o in c;
    LookupPicks(f, b, versions, Some(s));
    LookupPicks(f, c, versions, Some(o));
    NaiveEmpty(a, b, versions);
    assert f in a && !Unchanged(f, c, versions);
    NaiveEmpty(a, c, versions);
    forall t | t in b ensures Unchanged(t, c, versions) {
      var n :| 0 <= n < |b| && b[n] == t;
      assert c[n] in c;
      LookupPicks(t, c, versions, Some(c[n]));
      SameUnchanged(t, KeyOf(t, versions), versions);
      assert n == i ==> t == s;
    }
    NaiveEmpty(b, c, versions);
  }

  /** Comparisons without changes compose through a build exactly when it states what its
      symbols are. */
  lemma Composes(b: seq<Sym>, versions: bool)
    requires UniqueKeys(b, versions) && forall s :: s in b ==> Agrees(s)
    ensures (forall a, c :: (forall s :: s in a ==> Agrees(s)) && Naive(a, b, versions) == [] && Naive(b, c, versions) == [] ==>
               Naive(a, c, versions) == [])
      <==> forall s :: s in b ==> Typed(s)
  {
    if forall s :: s in b ==> Typed(s) {
      forall a, c | (forall s :: s in a ==> Agrees(s)) && Naive(a, b, versions) == [] && Naive(b, c, versions) == []
        ensures Naive(a, c, versions) == []
      {
        Transitive(a, b, c, versions);
      }
    } else {
      var i :| 0 <= i < |b| && !Typed(b[i]);
      assert b[i] in b;
      var a, c := UntypedBreaks(b, versions, i);
    }
  }

  ghost predicate AllAgree(r: Tables) {
    forall s :: s in r.exports + r.undefined ==> Agrees(s)
  }

  lemma SidedAgree(so: Result<Tables>, entry: Result<Option<Sym>>, undefined: bool)
    requires Sided(so, entry, undefined).Ok? && AllAgree(so.value)
    requires entry.Ok? && entry.value.Some? ==> Agrees(entry.value.value)
    ensures AllAgree(Sided(so, entry, undefined).value)
  {
  }

  lemma EntryAgrees(b: Bytes, strs: Strings, names: seq<Version>, t: Table, i: nat)
    requires strs.at + strs.size <= |b| && EntryAt(t, i) + 24 <= |b|
    ensures var r := SymbolAt(b, strs, names, t, i); r.Ok? && r.value.Some? ==> Agrees(r.value.value)
  {
  }

  lemma {:induction false} SymbolsAgree(b: Bytes, strs: Strings, names: seq<Version>, t: Table, n: nat)
    requires Fits(b, strs, t, n) && SymbolsUpTo(b, strs, names, t, n).Ok?
    ensures AllAgree(SymbolsUpTo(b, strs, names, t, n).value)
    decreases n
  {
    if n > 0 {
      var left: nat := n - 1;
      EntryFits(b, strs, t, left, n);
      SymbolsAgree(b, strs, names, t, left);
      EntryAgrees(b, strs, names, t, left);
      SidedAgree(SymbolsUpTo(b, strs, names, t, left), SymbolAt(b, strs, names, t, left), Undefined(b, t, left));
    }
  }

  lemma TableAgrees(b: Bytes, loads: seq<Load>, strs: Strings, names: seq<Version>, es: seq<Tagged>, end: Option<nat>)
    requires strs.at + strs.size <= |b| && Symbols(b, loads, strs, names, es, end).Ok?
    ensures AllAgree(Symbols(b, loads, strs, names, es, end).value)
  {
    if Last(es, DT_SYMTAB) != None {
      var entsize := LastOr(es, DT_SYMENT, 24);
      var start := OffsetOf(loads, Last(es, DT_SYMTAB).value).value;
      var n := SymbolCount(b, loads, es, start, entsize, end).value;
      var v := if Last(es, DT_VERSYM) == None then None else Some(OffsetOf(loads, Last(es, DT_VERSYM).value).value);
      SymbolsAgree(b, strs, names, Table(start, entsize, v), n);
    }
  }

  /** Every symbol of a file that can be read calls itself an object exactly when its kind
      does. */
  lemma ParsedAgrees(b: Bytes)
    ensures Parse(b).Ok? ==> forall s :: s in Parse(b).value.exports + Parse(b).value.undefined ==> Agrees(s)
  {
    if Parse(b).Ok? && Parse(b).value != NOTHING {
      var h := ReadHeaders(b, U64(b, 32).value, U16(b, 54).value, U16(b, 56).value, Headers([], None, false)).value;
      var (off, size) := h.dynamic.value;
      DynamicAgrees(b, h, Entries(b, off, size / 16));
    }
  }

  lemma DynamicAgrees(b: Bytes, h: Headers, es: seq<Tagged>)
    requires ReadDynamic(b, h, es).Ok?
    ensures var r := ReadDynamic(b, h, es).value; forall s :: s in r.exports + r.undefined ==> Agrees(s)
  {
    if !NothingAsked(es) {
      var strs := Strings(OffsetOf(h.loads, Last(es, DT_STRTAB).value).value, Last(es, DT_STRSZ).value);
      var end := SymbolsEnd(h.loads, es).value;
      var names := Versions(b, h.loads, strs, es).value;
      TableAgrees(b, h.loads, strs, names, es, end);
    }
  }

  /** A build in the middle that states nothing hides a function turned into an object. */
  lemma UntypedHides(f: Sym)
    requires f.kind == STT_FUNC && !f.isObject
    ensures var (b, c) := (f.(kind := 0), f.(kind := STT_OBJECT, isObject := true));
      && Naive([f], [b], true) == [] && Naive([b], [c], true) == []
      && Naive([f], [c], true) == [Retyped(KeyOf(f, true))]
  {
    var b, c := f.(kind := 0), f.(kind := STT_OBJECT, isObject := true);
    var sf, sb, sc := [f], [b], [c];
    var none: seq<Sym> := [];
    assert sf[..0] == none && sb[..0] == none;
    assert Lookup(sb, true, KeyOf(f, true)) == Some(b) && Lookup(sc, true, KeyOf(f, true)) == Some(c);
  }

  /** Without unique keys a build can differ from itself: one key is looked up the same way
      twice, and whichever of two symbols is found is not the other. */
  lemma DuplicatesDiffer(s: Sym, pick: Option<Sym>, versions: bool)
    requires s.isObject
    requires Picked(s, [s, s.(size := s.size + 1)], versions, pick)
    ensures ChangesOf(s, pick, versions) + ChangesOf(s.(size := s.size + 1), pick, versions) != []
  {
    var other := s.(size := s.size + 1);
    var x := [s, other];
    assert x[0] in x;
    assert pick.Some? ==> pick.value == s || pick.value == other;
    var k := KeyOf(s, versions);
    assert pick == Some(s) ==> Grew(k) in ChangesOf(other, pick, versions);
    assert pick == Some(other) ==> Grew(k) in ChangesOf(s, pick, versions);
  }
}
