/** The rebuild queue: `write_queue` and `read_queue` in db.rs. */
module Queue {
  import opened Paths
  import opened Records
  import opened Text
  import opened Formats
  import opened Database
  import opened Order

  datatype Queued = Queued(target: string, name: string, soname: string, changed: seq<string>)

  // -------------------------------------------------------------------------- the order

  predicate CharLess(a: char, b: char) {
    a < b
  }

  predicate TextLess(a: string, b: string) {
    Lex(CharLess, a, b)
  }

  /** Field by field. */
  function Fields(e: Queued): seq<string> {
    [e.target, e.name, e.soname] + e.changed
  }

  predicate Before(a: Queued, b: Queued) {
    Lex(TextLess, Fields(a), Fields(b))
  }

  lemma TextTotal()
    ensures Total(TextLess)
  {
    assert Total(CharLess);
    forall a, b ensures TextLess(a, b) || a == b || TextLess(b, a) {
      LexTotal(CharLess, a, b);
    }
    forall a, b | TextLess(a, b) ensures !TextLess(b, a) {
      LexTotal(CharLess, a, b);
    }
    forall a, b, c | TextLess(a, b) && TextLess(b, c) ensures TextLess(a, c) {
      LexTransitive(CharLess, a, b, c);
    }
  }

  lemma FieldsInjective(a: Queued, b: Queued)
    requires Fields(a) == Fields(b)
    ensures a == b
  {
    assert a.target == Fields(a)[0] && a.name == Fields(a)[1] && a.soname == Fields(a)[2] && a.changed == Fields(a)[3..];
    assert b.target == Fields(b)[0] && b.name == Fields(b)[1] && b.soname == Fields(b)[2] && b.changed == Fields(b)[3..];
  }

  lemma BeforeTotal(a: Queued, b: Queued)
    ensures Before(a, b) || a == b || Before(b, a)
    ensures Before(a, b) ==> a != b && !Before(b, a)
  {
    TextTotal();
    LexTotal(TextLess, Fields(a), Fields(b));
    if Fields(a) == Fields(b) {
      FieldsInjective(a, b);
    }
  }

  lemma BeforeWeak()
    ensures Weak(Before)
  {
    TextTotal();
    forall a, b | Before(a, b) ensures !Before(b, a) {
      BeforeTotal(a, b);
    }
    forall a, b, c | !Before(b, a) && !Before(c, b) ensures !Before(c, a) {
      BeforeTotal(a, b);
      BeforeTotal(b, c);
      BeforeTotal(a, c);
      if Before(a, b) && Before(b, c) {
        LexTransitive(TextLess, Fields(a), Fields(b), Fields(c));
      }
    }
  }

  function Dedup(s: seq<Queued>): seq<Queued> {
    if |s| < 2 then s
    else if s[0] == s[1] then Dedup(s[1..])
    else [s[0]] + Dedup(s[1..])
  }

  function Sorted(q: seq<Queued>): seq<Queued> {
    Dedup(Sort(Before, q))
  }

  lemma {:induction false} DedupHolds(s: seq<Queued>)
    requires Ordered(Before, s)
    ensures forall i, j :: 0 <= i < j < |Dedup(s)| ==> Before(Dedup(s)[i], Dedup(s)[j])
    ensures forall e :: e in Dedup(s) <==> e in s
  {
    if |s| >= 2 {
      var rest := s[1..];
      DedupHolds(rest);
      assert s == [s[0]] + rest && rest[0] == s[1];
      if s[0] != s[1] {
        forall e | e in rest ensures Before(s[0], e) {
          NotBehind(s, e);
        }
      }
    }
  }

  lemma NotBehind(s: seq<Queued>, e: Queued)
    requires Ordered(Before, s) && |s| >= 2 && s[0] != s[1] && e in s[1..]
    ensures Before(s[0], e)
  {
    var i :| 0 <= i < |s[1..]| && s[1..][i] == e;
    BeforeTotal(s[0], s[1]);
    assert Before(s[0], s[1]);
    if i > 0 {
      assert !Before(s[i + 1], s[1]);
      BeforeTotal(s[1], e);
      TextTotal();
      if s[1] != e {
        LexTransitive(TextLess, Fields(s[0]), Fields(s[1]), Fields(e));
      }
    }
  }

  /** The queue sorted, and every entry once. */
  lemma SortedHolds(q: seq<Queued>)
    ensures forall i, j :: 0 <= i < j < |Sorted(q)| ==> Before(Sorted(q)[i], Sorted(q)[j])
    ensures forall e :: e in Sorted(q) <==> e in q
  {
    BeforeWeak();
    SortHolds(Before, q);
    DedupHolds(Sort(Before, q));
    forall e ensures e in Sort(Before, q) <==> e in q {
      assert e in multiset(Sort(Before, q)) <==> e in multiset(q);
    }
  }

  // ---------------------------------------------------------------------------- the text

  function ShowQueued(e: Queued): string {
    Field(e.target, Field(e.soname, if e.changed == [] then e.name else Field(e.name, Join(e.changed, ','))))
  }

  function QueueLines(q: seq<Queued>): seq<string> {
    if q == [] then [] else [ShowQueued(q[0])] + QueueLines(q[1..])
  }

  /** The file, or none for an empty queue. */
  function QueueFile(q: seq<Queued>): Option<string> {
    if Sorted(q) == [] then None else Some(Terminated(QueueLines(Sorted(q))))
  }

  function NonEmpty(fs: seq<string>): seq<string> {
    if fs == [] then [] else (if fs[0] == [] then [] else [fs[0]]) + NonEmpty(fs[1..])
  }

  function ParseQueued(line: string, n: nat): Result<Queued> {
    var f := SplitN(line, ' ', 4);
    if |f| < 3 then Err(Line(n, ThreeFields))
    else Ok(Queued(f[0], f[2], f[1], NonEmpty(Split(if |f| == 4 then f[3] else "", ','))))
  }

  function ParseQueue(ls: seq<string>, n: nat): Result<seq<Queued>>
    decreases |ls|
  {
    if ls == [] then Ok([])
    else
      var line := Trim(ls[0]);
      if line == [] || line[0] == '#' then ParseQueue(ls[1..], n + 1)
      else
        match ParseQueued(line, n)
        case Err(f) => Err(f)
        case Ok(e) =>
          match ParseQueue(ls[1..], n + 1)
          case Err(f) => Err(f)
          case Ok(rest) => Ok([e] + rest)
  }

  function QueueOf(file: Option<string>): Result<seq<Queued>> {
    match file case None => Ok([]) case Some(text) => ParseQueue(Lines(text), 1)
  }

  /** Comma-free text, of which a change list can be made. */
  predicate Item(w: string) {
    w != [] && ',' !in w
  }

  predicate OneLine(e: Queued) {
    '\n' !in e.target && '\n' !in e.soname && '\n' !in e.name && forall w <- e.changed :: '\n' !in w
  }

  /** The text an entry's line ends in. */
  function Ending(e: Queued): string {
    if e.changed == [] then e.name else e.changed[|e.changed| - 1]
  }

  /** An entry its line gives back. */
  predicate Good(e: Queued) {
    && OneLine(e)
    && e.target != [] && !White(e.target[0]) && e.target[0] != '#'
    && ' ' !in e.target && ' ' !in e.soname && ' ' !in e.name
    && (forall w <- e.changed :: Item(w))
    && Ending(e) != [] && !White(Ending(e)[|Ending(e)| - 1])
  }

  /** What one line says: nothing, an entry, or an error. */
  function LineOf(line: string, n: nat): Option<Result<Queued>> {
    var l := Trim(line);
    if l == [] || l[0] == '#' then None else Some(ParseQueued(l, n))
  }

  predicate Reads(line: string, e: Queued, n: nat) {
    LineOf(line, n) == Some(Ok(e))
  }

  lemma {:induction false} NonEmptyAll(fs: seq<string>)
    requires forall f :: f in fs ==> f != []
    ensures NonEmpty(fs) == fs
  {
    if fs != [] {
      assert fs[0] in fs && fs == [fs[0]] + fs[1..];
      forall f | f in fs[1..] ensures f != [] {
        assert f in fs;
      }
      NonEmptyAll(fs[1..]);
    }
  }

  lemma ChangedBack(changed: seq<string>)
    requires forall w :: w in changed ==> Item(w)
    ensures NonEmpty(Split(if changed == [] then "" else Join(changed, ','), ',')) == changed
  {
    if changed == [] {
      var one := Split("", ',');
      assert one == [[]] && one[1..] == [];
    } else {
      forall i | 0 <= i < |changed| ensures ',' !in changed[i] {
        assert changed[i] in changed;
      }
      SplitJoin(changed, ',');
      NonEmptyAll(changed);
    }
  }

  lemma {:induction false} JoinEnds(changed: seq<string>)
    requires changed != [] && forall w :: w in changed ==> w != []
    ensures var (j, last) := (Join(changed, ','), changed[|changed| - 1]);
      last != [] && j != [] && j[|j| - 1] == last[|last| - 1]
  {
    assert changed[0] in changed && changed[|changed| - 1] in changed;
    if |changed| > 1 {
      var rest := changed[1..];
      assert forall w :: w in rest ==> w in changed;
      JoinEnds(rest);
    }
  }

  /** Three fields, or four. */
  lemma ThreeBack(a: string, b: string, c: string)
    requires ' ' !in a && ' ' !in b && ' ' !in c
    ensures SplitN(Field(a, Field(b, c)), ' ', 4) == [a, b, c]
  {
    SplitNFirst(a, ' ', Field(b, c), 4);
    SplitNFirst(b, ' ', c, 3);
    IndexFirst(c, ' ');
    assert SplitN(c, ' ', 2) == [c];
  }

  /** Where an entry's line starts and ends. */
  lemma ShownEnds(e: Queued)
    requires forall w :: w in e.changed ==> w != []
    ensures var s := ShowQueued(e);
      && s != [] && (e.target != [] ==> s[0] == e.target[0])
      && s[|s| - 1] == if Ending(e) == [] then ' ' else Ending(e)[|Ending(e)| - 1]
  {
    if e.changed == [] {
      FieldEnds(e.soname, e.name);
      FieldEnds(e.target, Field(e.soname, e.name));
    } else {
      JoinEnds(e.changed);
      var j := Join(e.changed, ',');
      FieldEnds(e.name, j);
      FieldEnds(e.soname, Field(e.name, j));
      FieldEnds(e.target, Field(e.soname, Field(e.name, j)));
    }
  }

  lemma FieldEnds(a: string, rest: string)
    ensures var s := Field(a, rest);
      && s != [] && (a != [] ==> s[0] == a[0])
      && s[|s| - 1] == if rest == [] then ' ' else rest[|rest| - 1]
  {
  }

  lemma ShowEnds(e: Queued)
    requires Good(e)
    ensures CleanLine(ShowQueued(e))
  {
    ShowOneLine(e);
    ShownEnds(e);
  }

  lemma QueuedBack(e: Queued, n: nat)
    requires Good(e)
    ensures CleanLine(ShowQueued(e)) && Reads(ShowQueued(e), e, n)
  {
    ShowEnds(e);
    TrimTrimmed(ShowQueued(e));
    ChangedBack(e.changed);
    if e.changed == [] {
      ThreeBack(e.target, e.soname, e.name);
    } else {
      FieldsBack(e.target, e.soname, e.name, Join(e.changed, ','));
    }
  }

  // ------------------------------------------------------------------- and nothing else

  lemma {:induction false} SplitItems(s: string)
    ensures forall w :: w in NonEmpty(Split(s, ',')) ==> Item(w)
    ensures '\n' !in s ==> forall w :: w in NonEmpty(Split(s, ',')) ==> '\n' !in w
  {
    SplitFields(s, ',');
    if '\n' !in s { SplitWithin(s, ',', '\n'); }
    NonEmptySome(Split(s, ','));
  }

  lemma {:induction false} SplitWithin(s: string, sep: char, c: char)
    requires c !in s
    ensures forall f :: f in Split(s, sep) ==> c !in f
  {
    if s != [] {
      SplitWithin(s[1..], sep, c);
    }
  }

  lemma {:induction false} NonEmptySome(fs: seq<string>)
    ensures forall w :: w in NonEmpty(fs) <==> w in fs && w != []
  {
    if fs != [] {
      NonEmptySome(fs[1..]);
      assert fs == [fs[0]] + fs[1..];
    }
  }

  /** What the fields of a list come to, a separator between each two. */
  function Extent(fs: seq<string>): nat {
    if fs == [] then 0 else |fs[0]| + 1 + Extent(fs[1..])
  }

  lemma {:induction false} SplitExtent(s: string, sep: char)
    ensures Extent(Split(s, sep)) == |s| + 1
  {
    if s != [] {
      SplitExtent(s[1..], sep);
      var rest := Split(s[1..], sep);
      var all := Split(s, sep);
      if s[0] == sep {
        assert all[1..] == rest;
      } else {
        assert all[1..] == rest[1..];
      }
    }
  }

  lemma {:induction false} SplitNExtent(s: string, sep: char, n: nat)
    requires n > 0
    ensures Extent(SplitN(s, sep, n)) == |s| + 1
    decreases n
  {
    var i := Index(s, sep);
    var fs := SplitN(s, sep, n);
    if n == 1 || i == |s| {
      assert fs[1..] == [];
    } else {
      SplitNExtent(s[i + 1..], sep, n - 1);
      assert fs[1..] == SplitN(s[i + 1..], sep, n - 1);
    }
  }

  lemma {:induction false} NonEmptyExtent(fs: seq<string>)
    ensures Extent(NonEmpty(fs)) <= Extent(fs)
  {
    if fs != [] {
      NonEmptyExtent(fs[1..]);
      var left := NonEmpty(fs);
      assert fs[0] == [] ==> left == NonEmpty(fs[1..]);
      assert fs[0] != [] ==> left[0] == fs[0] && left[1..] == NonEmpty(fs[1..]);
    }
  }

  lemma {:induction false} JoinExtent(fs: seq<string>, sep: char)
    requires fs != []
    ensures |Join(fs, sep)| + 1 == Extent(fs)
  {
    if |fs| > 1 {
      JoinExtent(fs[1..], sep);
    } else {
      assert fs[1..] == [];
    }
  }

  /** A line read as an entry is at least as long as the entry's own. */
  lemma ReadLonger(line: string, e: Queued, n: nat)
    requires ParseQueued(line, n) == Ok(e)
    ensures |line| >= |ShowQueued(e)|
  {
    var f := SplitN(line, ' ', 4);
    SplitNExtent(line, ' ', 4);
    assert Extent(f) == |f[0]| + 1 + Extent(f[1..]) && Extent(f[1..]) == |f[1]| + 1 + Extent(f[2..]) by {
      assert f[1..][1..] == f[2..];
    }
    assert Extent(f[2..]) == |f[2]| + 1 + Extent(f[3..]) by {
      assert f[2..][1..] == f[3..];
    }
    if |f| == 4 {
      assert f[3..] == [f[3]] && f[3..][1..] == [];
      SplitExtent(f[3], ',');
      NonEmptyExtent(Split(f[3], ','));
      if e.changed != [] { JoinExtent(e.changed, ','); }
    } else {
      assert f[3..] == [];
      ChangedBack([]);
    }
  }

  /** What a trimmed line of one line is read as. */
  lemma ParsedGood(line: string, e: Queued, n: nat)
    requires '\n' !in line && line != [] && !White(line[0]) && line[0] != '#' && ParseQueued(line, n) == Ok(e)
    ensures OneLine(e) && (forall w <- e.changed :: Item(w))
    ensures e.target != [] && !White(e.target[0]) && e.target[0] != '#'
    ensures ' ' !in e.target && ' ' !in e.soname && ' ' !in e.name
  {
    var f := SplitN(line, ' ', 4);
    SplitNWithin(line, ' ', 4, '\n');
    assert f[0] in f && f[1] in f && f[2] in f;
    IndexFirst(line, ' ');
    SplitItems(if |f| == 4 then f[3] else "");
    assert |f| == 4 ==> f[3] in f;
  }

  /** An entry of one line is read back from its own line exactly when it is good. */
  lemma LineGood(e: Queued, n: nat)
    requires OneLine(e)
    ensures Reads(StripCr(ShowQueued(e)), e, n) <==> Good(e)
  {
    var s := ShowQueued(e);
    if Good(e) {
      QueuedBack(e, n);
      assert StripCr(s) == s;
    }
    if Reads(StripCr(s), e, n) {
      var line := Trim(StripCr(s));
      ShowOneLine(e);
      TrimTrimmed(StripCr(s));
      ParsedGood(line, e, n);
      ReadLonger(line, e, n);
      TrimShorter(StripCr(s));
      assert line == s;
      EndingShown(e);
    }
  }

  lemma ShowOneLine(e: Queued)
    requires OneLine(e)
    ensures '\n' !in ShowQueued(e)
  {
    if e.changed != [] { JoinWithin(e.changed, ',', '\n'); }
  }

  lemma {:induction false} JoinWithin(fs: seq<string>, sep: char, c: char)
    requires c != sep && forall f :: f in fs ==> c !in f
    ensures c !in Join(fs, sep)
  {
    if fs != [] {
      assert fs[0] in fs && forall f :: f in fs[1..] ==> f in fs;
      JoinWithin(fs[1..], sep, c);
    }
  }

  lemma TrimShorter(s: string)
    ensures |Trim(s)| <= |s| && (|Trim(s)| == |s| ==> Trim(s) == s)
  {
    TrimStartKeeps(s);
    TrimEndKeeps(TrimStart(s));
  }

  /** A trimmed line of an entry ends in what the entry ends in. */
  lemma EndingShown(e: Queued)
    requires Trimmed(ShowQueued(e)) && forall w <- e.changed :: Item(w)
    ensures Ending(e) != [] && !White(Ending(e)[|Ending(e)| - 1])
  {
    ShownEnds(e);
  }

  // -------------------------------------------------------------------------- the file

  function Stripped(q: seq<Queued>): seq<string> {
    if q == [] then [] else [StripCr(ShowQueued(q[0]))] + Stripped(q[1..])
  }

  /** Entries of one line each make a file of a line each. */
  lemma {:induction false} LineEach(q: seq<Queued>)
    requires forall e :: e in q ==> OneLine(e)
    ensures Lines(Terminated(QueueLines(q))) == Stripped(q)
  {
    if q != [] {
      var e, ls := q[0], QueueLines(q);
      assert e in q && forall f :: f in q[1..] ==> f in q;
      LineEach(q[1..]);
      ShowOneLine(e);
      assert ls[0] == ShowQueued(e) && ls[1..] == QueueLines(q[1..]);
      LinesFirst(ShowQueued(e), Terminated(ls[1..]));
    }
  }

  lemma {:induction false} StrippedAt(q: seq<Queued>)
    ensures |Stripped(q)| == |q| && forall i :: 0 <= i < |q| ==> Stripped(q)[i] == StripCr(ShowQueued(q[i]))
  {
    if q != [] {
      StrippedAt(q[1..]);
      var all := Stripped(q);
      forall i | 0 < i < |q| ensures all[i] == StripCr(ShowQueued(q[i])) {
        assert all[i] == Stripped(q[1..])[i - 1] && q[i] == q[1..][i - 1];
      }
    }
  }

  function Outcomes(ls: seq<string>, n: nat): (outs: seq<Option<Result<Queued>>>)
    ensures |outs| == |ls| && forall i :: 0 <= i < |ls| ==> outs[i] == LineOf(ls[i], n + i)
  {
    seq(|ls|, i requires 0 <= i < |ls| => LineOf(ls[i], n + i))
  }

  /** What a list of lines comes to: the entries, or the first error. */
  function Collected(outs: seq<Option<Result<Queued>>>): Result<seq<Queued>> {
    if outs == [] then Ok([])
    else if outs[0] == None then Collected(outs[1..])
    else if outs[0].value.Err? then Err(outs[0].value.fault)
    else Onto([outs[0].value.value], Collected(outs[1..]))
  }

  lemma {:induction false} ParseCollects(ls: seq<string>, n: nat)
    ensures ParseQueue(ls, n) == Collected(Outcomes(ls, n))
    decreases |ls|
  {
    if ls != [] {
      ParseCollects(ls[1..], n + 1);
      assert Outcomes(ls, n)[1..] == Outcomes(ls[1..], n + 1);
    }
  }

  lemma {:induction false} NoMore(outs: seq<Option<Result<Queued>>>)
    ensures Collected(outs).Ok? ==> |Collected(outs).value| <= |outs|
  {
    if outs != [] {
      NoMore(outs[1..]);
    }
  }

  /** As many entries as lines: every line says one, in order. */
  lemma {:induction false} OneEach(outs: seq<Option<Result<Queued>>>, q: seq<Queued>)
    requires |outs| == |q|
    ensures Collected(outs) == Ok(q) <==> forall i :: 0 <= i < |q| ==> outs[i] == Some(Ok(q[i]))
  {
    if q != [] {
      var more, rest := outs[1..], q[1..];
      OneEach(more, rest);
      NoMore(more);
      assert q == [q[0]] + rest;
      if Collected(outs) == Ok(q) && outs[0] != None {
        assert q == [outs[0].value.value] + Collected(more).value;
        assert q[0] == outs[0].value.value && rest == Collected(more).value;
      }
      if Collected(more) == Ok(rest) && outs[0] == Some(Ok(q[0])) {
        forall i | 0 < i < |q| ensures outs[i] == Some(Ok(q[i])) {
          assert more[i - 1] == Some(Ok(rest[i - 1]));
        }
      }
      if forall i :: 0 <= i < |q| ==> outs[i] == Some(Ok(q[i])) {
        forall i | 0 <= i < |rest| ensures more[i] == Some(Ok(rest[i])) {
        }
      }
    }
  }

  lemma {:induction false} ParsedOneLine(ls: seq<string>, n: nat)
    requires (forall l :: l in ls ==> '\n' !in l) && ParseQueue(ls, n).Ok?
    ensures forall e :: e in ParseQueue(ls, n).value ==> OneLine(e)
    decreases |ls|
  {
    if ls != [] {
      ParsedOneLine(ls[1..], n + 1);
      var line := Trim(ls[0]);
      TrimTrimmed(ls[0]);
      assert ls[0] in ls;
      if line != [] && line[0] != '#' {
        ParsedGood(line, ParseQueued(line, n).value, n);
      }
    }
  }

  lemma AllGood(s: seq<Queued>, ls: seq<string>)
    requires |ls| == |s| && (forall e :: e in s ==> OneLine(e)) && forall i :: 0 <= i < |s| ==> ls[i] == StripCr(ShowQueued(s[i]))
    ensures (forall i :: 0 <= i < |s| ==> LineOf(ls[i], 1 + i) == Some(Ok(s[i]))) <==> forall e :: e in s ==> Good(e)
  {
    forall i | 0 <= i < |s| ensures LineOf(ls[i], 1 + i) == Some(Ok(s[i])) <==> Good(s[i]) {
      assert s[i] in s;
      LineGood(s[i], 1 + i);
    }
    if forall i :: 0 <= i < |s| ==> LineOf(ls[i], 1 + i) == Some(Ok(s[i])) {
      forall e | e in s ensures Good(e) {
        var i :| 0 <= i < |s| && s[i] == e;
        assert LineOf(ls[i], 1 + i) == Some(Ok(s[i]));
      }
    }
  }

  /** A file gives its entries back exactly when they are good. */
  lemma FileGood(s: seq<Queued>)
    ensures ParseQueue(Lines(Terminated(QueueLines(s))), 1) == Ok(s) <==> forall e :: e in s ==> Good(e)
  {
    var ls := Lines(Terminated(QueueLines(s)));
    if ParseQueue(ls, 1) == Ok(s) {
      LinesClean(Terminated(QueueLines(s)));
      ParsedOneLine(ls, 1);
    }
    if forall e :: e in s ==> OneLine(e) {
      OneLinesGood(s);
    }
  }

  lemma OneLinesGood(s: seq<Queued>)
    requires forall e :: e in s ==> OneLine(e)
    ensures ParseQueue(Lines(Terminated(QueueLines(s))), 1) == Ok(s) <==> forall e :: e in s ==> Good(e)
  {
    LineEach(s);
    StrippedGood(s, Stripped(s));
  }

  lemma StrippedGood(s: seq<Queued>, ls: seq<string>)
    requires (forall e :: e in s ==> OneLine(e)) && ls == Stripped(s)
    ensures ParseQueue(ls, 1) == Ok(s) <==> forall e :: e in s ==> Good(e)
  {
    StrippedAt(s);
    AllGood(s, ls);
    ParseEach(ls, s);
  }

  lemma ParseEach(ls: seq<string>, s: seq<Queued>)
    requires |ls| == |s|
    ensures ParseQueue(ls, 1) == Ok(s) <==> forall i :: 0 <= i < |s| ==> LineOf(ls[i], 1 + i) == Some(Ok(s[i]))
  {
    ParseCollects(ls, 1);
    OneEach(Outcomes(ls, 1), s);
  }

  /** What was queued is read back, in order and once, exactly when every entry is good. */
  lemma QueueSurvives(q: seq<Queued>)
    ensures QueueOf(QueueFile(q)) == Ok(Sorted(q)) <==> forall e :: e in q ==> Good(e)
  {
    SortedHolds(q);
    FileGood(Sorted(q));
    assert Sorted(q) == [] ==> forall e :: e in q ==> e in Sorted(q);
  }

  method WriteQueue(q: seq<Queued>) returns (file: Option<string>)
    ensures file == QueueFile(q)
    ensures QueueOf(file) == Ok(Sorted(q)) <==> forall e :: e in q ==> Good(e)
  {
    var sorted := Dedup(Sort(Before, q));
    if sorted == [] {
      file := None;
    } else {
      var body := "";
      ghost var whole := Terminated(QueueLines(sorted));
      assert sorted[0..] == sorted && body + whole == whole;
      for i := 0 to |sorted|
        invariant body + Terminated(QueueLines(sorted[i..])) == whole
      {
        assert sorted[i..][0] == sorted[i] && sorted[i..][1..] == sorted[i + 1..];
        var e := sorted[i];
        QueueTextStep(body, e, sorted[i..]);
        body := body + (ShowQueued(e) + "\n");
      }
      assert body + [] == body;
      file := Some(body);
    }
    QueueSurvives(q);
  }

  lemma QueueTextStep(so: string, e: Queued, q: seq<Queued>)
    requires q != [] && q[0] == e
    ensures so + Terminated(QueueLines(q)) == (so + (ShowQueued(e) + "\n")) + Terminated(QueueLines(q[1..]))
  {
    var ls := QueueLines(q);
    assert ls[0] == ShowQueued(e) && ls[1..] == QueueLines(q[1..]);
    assert Terminated(ls) == ShowQueued(e) + "\n" + Terminated(QueueLines(q[1..]));
  }

  method ReadQueue(file: Option<string>) returns (r: Result<seq<Queued>>)
    ensures r == QueueOf(file)
  {
    if file.None? {
      return Ok([]);
    }
    var ls := Lines(file.value);
    var out: seq<Queued> := [];
    ghost var whole := ParseQueue(ls, 1);
    assert ls[0..] == ls;
    assert forall es: seq<Queued> :: out + es == es;
    for i := 0 to |ls|
      invariant whole == Onto(out, ParseQueue(ls[i..], i + 1))
    {
      assert ls[i..][0] == ls[i] && ls[i..][1..] == ls[i + 1..];
      var line := Trim(ls[i]);
      if line == [] || line[0] == '#' {
        continue;
      }
      var e := ParseQueued(line, i + 1);
      if e.Err? {
        return Err(e.fault);
      }
      OntoOnto(out, [e.value], ParseQueue(ls[i + 1..], i + 2));
      out := out + [e.value];
    }
    assert out + [] == out;
    return Ok(out);
  }

  lemma NamelessLine(e: Queued, l: string)
    requires e.name == "" && e.changed == [] && Word(e.target) && Word(e.soname) && l == e.target + [' '] + e.soname
    ensures QueueFile([e]).Some? && Lines(QueueFile([e]).value) == [l + [' ']] && Trim(l + [' ']) == l
  {
    var q, shown := [e], l + [' '];
    OneSorted(e);
    assert ShowQueued(e) == shown;
    assert q[1..] == [];
    var ls := [shown];
    assert QueueLines(q) == ls && ls[1..] == [];
    assert Terminated(ls) == shown + "\n" + "";
    LinesFirst(shown, "");
    TrimLine(l, ' ');
  }

  /** An entry without a name and without changes leaves a file that cannot be read. */
  lemma NamelessUnreadable(t: string, so: string)
    requires Word(t) && t[0] != '#' && Word(so)
    ensures QueueOf(QueueFile([Queued(t, "", so, [])])) == Err(Line(1, ThreeFields))
  {
    var l := t + [' '] + so;
    NamelessLine(Queued(t, "", so, []), l);
    var ls := [l + [' ']];
    assert ls[1..] == [];
    TwoFields(t, so);
  }

  lemma OneSorted(e: Queued)
    ensures Sorted([e]) == [e]
  {
    var q := [e];
    var none: seq<Queued> := [];
    assert q[1..] == none && Sort(Before, none) == none;
  }

  lemma TwoFields(t: string, so: string)
    requires Word(t) && Word(so)
    ensures SplitN(t + [' '] + so, ' ', 4) == [t, so]
  {
    SplitNFirst(t, ' ', so, 4);
    SplitNWithin(so, ' ', 3, ' ');
    IndexFirst(so, ' ');
    assert SplitN(so, ' ', 3) == [so];
  }
}
