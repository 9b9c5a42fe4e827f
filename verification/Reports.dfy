/** What each report of a comparison says of the two symbols it is about, field by field:
    `compare` and `class` in elf.rs. */
module Reports {
  import opened Paths
  import opened Disk
  import opened Elf
  import opened Abi

  /** A symbol goes by its name, with an at sign and its version behind it where versions count. */
  predicate GoesBy(s: Sym, versions: bool, k: Name) {
    match s.version
    case Some(v) => k == if versions then s.name + [0x40] + v else s.name
    case None => k == s.name
  }

  /** Kinds 1, 6, and 2 and 10 are each got at in a way of their own. */
  predicate OtherWay(a: nat, b: nat) {
    || (a == 1 && b in {2, 6, 10})
    || (a == 6 && b in {1, 2, 10})
    || (a in {2, 10} && b in {1, 6})
  }

  /** What a report says of a symbol and of the one in its place. */
  predicate SaysOf(c: Change, was: Sym, now: Sym, versions: bool) {
    match c
    case Gone(_) => false
    case Weakened(_) => now.weak && !was.weak
    case Grew(_) => was.isObject && now.isObject && was.size != now.size
    case Retyped(_) => OtherWay(was.kind, now.kind)
    case Undefaulted(_) => versions && was.isDefault && !now.isDefault
  }

  ghost predicate About(c: Change, was: Sym, now: Sym, versions: bool) {
    GoesBy(was, versions, c.key) && GoesBy(now, versions, c.key) && SaysOf(c, was, now, versions)
  }

  lemma KeyIs(s: Sym, versions: bool, k: Name)
    ensures KeyOf(s, versions) == k <==> GoesBy(s, versions, k)
  {
  }

  /** A report of one symbol that is still there. */
  lemma BetweenSays(c: Change, was: Sym, now: Sym, k: Name, versions: bool)
    requires !c.Gone?
    ensures c in Between(was, now, k, versions) <==> c.key == k && SaysOf(c, was, now, versions)
  {
    assert Reclassed(was.kind, now.kind) == OtherWay(was.kind, now.kind);
  }

  lemma PickSays(c: Change, was: Sym, after: seq<Sym>, pick: Option<Sym>, versions: bool)
    requires !c.Gone? && Picked(was, after, versions, pick)
    ensures c in ChangesOf(was, pick, versions) <==> pick.Some? && About(c, was, pick.value, versions)
  {
    if pick.Some? {
      BetweenSays(c, was, pick.value, KeyOf(was, versions), versions);
      KeyIs(was, versions, c.key);
      KeyIs(pick.value, versions, c.key);
    }
  }

  /** A report is about the `i`th old symbol. */
  ghost predicate AboutAt(c: Change, before: seq<Sym>, picks: seq<Option<Sym>>, versions: bool, i: nat)
    requires i < |before| == |picks|
  {
    picks[i].Some? && About(c, before[i], picks[i].value, versions)
  }

  lemma ReportFront(c: Change, before: seq<Sym>, picks: seq<Option<Sym>>, versions: bool, n: nat)
    requires |before| == |picks| == n + 1
    ensures (exists i: nat :: i < n + 1 && AboutAt(c, before, picks, versions, i))
      <==> (exists i: nat :: i < n && AboutAt(c, before[..n], picks[..n], versions, i)) || AboutAt(c, before, picks, versions, n)
  {
    assert forall i: nat :: i < n ==> (AboutAt(c, before[..n], picks[..n], versions, i) <==> AboutAt(c, before, picks, versions, i));
  }

  /** Which old symbols a report is about. */
  lemma {:induction false} ReportOf(c: Change, before: seq<Sym>, after: seq<Sym>, versions: bool, picks: seq<Option<Sym>>)
    requires !c.Gone? && AllPicked(before, after, versions, picks)
    ensures c in Changes(before, picks, versions)
      <==> exists i: nat :: i < |before| && AboutAt(c, before, picks, versions, i)
    decreases |before|
  {
    if before != [] {
      var n: nat := |before| - 1;
      ReportOf(c, before[..n], after, versions, picks[..n]);
      PickSays(c, before[n], after, picks[n], versions);
      ReportFront(c, before, picks, versions, n);
    }
  }

  ghost predicate Apart(after: seq<Sym>, versions: bool) {
    forall i, j, k :: 0 <= i < j < |after| && GoesBy(after[i], versions, k) ==> !GoesBy(after[j], versions, k)
  }

  /** A comparison reports that a symbol became weak, changed its size or the way it is got at, or
      is no longer the default, exactly for an old symbol and the new one of its key of which that
      is so. */
  lemma ReportedExactly(c: Change, before: seq<Sym>, after: seq<Sym>, versions: bool, picks: seq<Option<Sym>>)
    requires !c.Gone? && AllPicked(before, after, versions, picks) && Apart(after, versions)
    ensures c in Changes(before, picks, versions) <==> exists was, now :: was in before && now in after && About(c, was, now, versions)
  {
    ReportOf(c, before, after, versions, picks);
    if c in Changes(before, picks, versions) {
      var i: nat :| i < |before| && AboutAt(c, before, picks, versions, i);
      assert before[i] in before && picks[i].value in after;
    }
    if was, now :| was in before && now in after && About(c, was, now, versions) {
      var i :| 0 <= i < |before| && before[i] == was;
      OnlyOne(c.key, was, now, after, versions, picks[i]);
      assert AboutAt(c, before, picks, versions, i);
    }
  }

  lemma OnlyOne(k: Name, was: Sym, now: Sym, after: seq<Sym>, versions: bool, pick: Option<Sym>)
    requires Apart(after, versions) && Picked(was, after, versions, pick)
    requires now in after && GoesBy(was, versions, k) && GoesBy(now, versions, k)
    ensures pick == Some(now)
  {
    KeyIs(was, versions, k);
    KeyIs(now, versions, k);
    assert Keyed(after, versions, k);
    KeyIs(pick.value, versions, k);
    var i :| 0 <= i < |after| && after[i] == now;
    var j :| 0 <= j < |after| && after[j] == pick.value;
    assert i == j;
  }

  /** A symbol is reported gone exactly when no new one goes by its name. */
  lemma GoneMeans(k: Name, before: seq<Sym>, after: seq<Sym>, versions: bool, picks: seq<Option<Sym>>)
    requires AllPicked(before, after, versions, picks)
    ensures Gone(k) in Changes(before, picks, versions)
      <==> (exists s :: s in before && GoesBy(s, versions, k)) && forall s :: s in after ==> !GoesBy(s, versions, k)
  {
    GoneExactly(before, after, versions, picks, k);
    forall s ensures KeyOf(s, versions) == k <==> GoesBy(s, versions, k) {
      KeyIs(s, versions, k);
    }
  }
}
