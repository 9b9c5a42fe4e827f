/** How each line of the database's files is spelled: numbers, manifest entries, provides, versions
    and queued rebuilds. db.rs and pkg.rs. */
module Spelling {
  import opened Paths
  import opened Records
  import opened Text
  import opened Formats
  import Database
  import Queue
  import Order

  // ---------------------------------------------------------------------------- numbers

  predicate DigitsBelow(s: string, top: char) {
    forall i :: 0 <= i < |s| ==> '0' <= s[i] <= top
  }

  function Figure(c: char): int {
    c as int - '0' as int
  }

  /** A number's value, by its last digit and what stands before it. */
  function InOctal(s: string): int
    decreases |s|
  {
    if s == [] then 0 else 8 * InOctal(s[..|s| - 1]) + Figure(s[|s| - 1])
  }

  function InDecimal(s: string): int
    decreases |s|
  {
    if s == [] then 0 else 10 * InDecimal(s[..|s| - 1]) + Figure(s[|s| - 1])
  }

  function Unsigned(s: string): string {
    if |s| > 1 && s[0] == '+' then s[1..] else s
  }

  lemma BelowFront(s: string, top: char)
    requires s != []
    ensures DigitsBelow(s, top) <==> DigitsBelow(s[..|s| - 1], top) && '0' <= s[|s| - 1] <= top
  {
    assert forall i :: 0 <= i < |s| - 1 ==> s[..|s| - 1][i] == s[i];
    if DigitsBelow(s[..|s| - 1], top) && '0' <= s[|s| - 1] <= top {
      forall i | 0 <= i < |s| ensures '0' <= s[i] <= top {
        if i < |s| - 1 { assert s[..|s| - 1][i] == s[i]; }
      }
    }
  }

  lemma {:induction false} OctalValue(s: string)
    ensures Value(s, Eight).Some? <==> DigitsBelow(s, '7')
    ensures Value(s, Eight).Some? ==> Value(s, Eight).value == InOctal(s)
    decreases |s|
  {
    if s != [] {
      BelowFront(s, '7');
      OctalValue(s[..|s| - 1]);
    }
  }

  lemma {:induction false} DecimalValue(s: string)
    ensures Value(s, Ten).Some? <==> DigitsBelow(s, '9')
    ensures Value(s, Ten).Some? ==> Value(s, Ten).value == InDecimal(s)
    decreases |s|
  {
    if s != [] {
      BelowFront(s, '9');
      DecimalValue(s[..|s| - 1]);
    }
  }

  predicate OctalIs(s: string, v: nat) {
    Unsigned(s) != [] && DigitsBelow(Unsigned(s), '7') && InOctal(Unsigned(s)) == v < 0x1_0000_0000
  }

  predicate DecimalIs(s: string, v: nat) {
    Unsigned(s) != [] && DigitsBelow(Unsigned(s), '9') && InDecimal(Unsigned(s)) == v < 0x1_0000_0000
  }

  lemma NumbersAre(s: string, v: nat)
    ensures ParseU32(s, Eight) == Some(v) <==> OctalIs(s, v)
    ensures ParseU32(s, Ten) == Some(v) <==> DecimalIs(s, v)
  {
    OctalValue(Unsigned(s));
    DecimalValue(Unsigned(s));
  }

  // ----------------------------------------------------------------------------- fields

  /** Fields with one space between each and the next. */
  function Two(a: string, b: string): string {
    a + [' '] + b
  }

  function Three(a: string, b: string, c: string): string {
    Two(a, Two(b, c))
  }

  function Four(a: string, b: string, c: string, d: string): string {
    Two(a, Three(b, c, d))
  }

  /** A first field and the rest. */
  lemma SplitOnce(s: string, n: nat, a: string, rest: seq<string>)
    requires n > 1 && rest != []
    ensures SplitN(s, ' ', n) == [a] + rest <==> exists t :: s == Two(a, t) && ' ' !in a && SplitN(t, ' ', n - 1) == rest
  {
    if SplitN(s, ' ', n) == [a] + rest {
      IndexFirst(s, ' ');
      var i := Index(s, ' ');
      assert ([a] + rest)[1..] == rest && SplitN(s, ' ', n)[1..] == SplitN(s[i + 1..], ' ', n - 1);
      assert s == Two(s[..i], s[i + 1..]);
    }
    if t :| s == Two(a, t) && ' ' !in a && SplitN(t, ' ', n - 1) == rest {
      SplitNFirst(a, ' ', t, n);
    }
  }

  lemma TwoFields(s: string, a: string, b: string)
    ensures SplitN(s, ' ', 2) == [a] + [b] <==> s == Two(a, b) && ' ' !in a
  {
    SplitOnce(s, 2, a, [b]);
    forall t: string ensures SplitN(t, ' ', 1) == [t] {
    }
  }

  lemma ThreeFields(s: string, a: string, b: string, c: string)
    ensures SplitN(s, ' ', 3) == [a] + ([b] + [c]) <==> s == Three(a, b, c) && ' ' !in a && ' ' !in b
  {
    SplitOnce(s, 3, a, [b] + [c]);
    forall t: string ensures SplitN(t, ' ', 2) == [b] + [c] <==> t == Two(b, c) && ' ' !in b {
      TwoFields(t, b, c);
    }
  }

  lemma FourFields(s: string, a: string, b: string, c: string, d: string)
    ensures SplitN(s, ' ', 4) == [a] + ([b] + ([c] + [d])) <==> s == Four(a, b, c, d) && ' ' !in a && ' ' !in b && ' ' !in c
  {
    SplitOnce(s, 4, a, [b] + ([c] + [d]));
    forall t: string ensures SplitN(t, ' ', 3) == [b] + ([c] + [d]) <==> t == Three(b, c, d) && ' ' !in b && ' ' !in c {
      ThreeFields(t, b, c, d);
    }
  }

  // --------------------------------------------------------------------------- manifest

  /** What the first and the third field say an entry is: a file with its hash in 64 hexadecimal
      digits, a directory, a symbolic link with its target or a hard link with its file. */
  predicate KindSpells(letter: string, third: string, kind: Kind<string, string>) {
    match kind
    case File(hash) => letter == "f" && third == hash && |hash| == 64 && forall c <- hash :: Hexadecimal(c)
    case Dir => letter == "d" && third == "-"
    case Link(target) => letter == "l" && third == target
    case Hard(to) => letter == "h" && third == to
  }

  predicate Hexadecimal(c: char) {
    '0' <= c <= '9' || 'A' <= c <= 'F' || 'a' <= c <= 'f'
  }

  lemma KindIs(letter: string, third: string, kind: Kind<string, string>)
    ensures ParseKind(letter, third) == Is(kind) <==> KindSpells(letter, third, kind)
  {
    assert "f"[0] == 'f' && "d"[0] == 'd' && "l"[0] == 'l' && "h"[0] == 'h';
    assert forall c :: HexDigit(c) <==> Hexadecimal(c);
  }

  /** A line with its kind's letter, its mode in octal, the third field and a path below the
      root: the path is all that is left, spaces and all. */
  ghost predicate EntrySpells(line: string, e: TextEntry) {
    && e.path != [] && e.path[0] != '/'
    && exists letter, mode, third :: FieldsSpell(line, letter, mode, third, e)
  }

  predicate FieldsSpell(line: string, letter: string, mode: string, third: string, e: TextEntry) {
    && line == Four(letter, mode, third, e.path) && ' ' !in letter && ' ' !in mode && ' ' !in third
    && OctalIs(mode, e.mode) && KindSpells(letter, third, e.kind)
  }

  lemma EntryOfIs(line: string, n: nat, f: seq<string>, e: TextEntry)
    requires f == SplitN(line, ' ', 4) && |f| == 4
    ensures ParseEntry(line, n) == Ok(e) <==>
      OctalIs(f[1], e.mode) && KindSpells(f[0], f[2], e.kind) && e.path == f[3] && f[3] != [] && f[3][0] != '/'
  {
    NumbersAre(f[1], e.mode);
    KindIs(f[0], f[2], e.kind);
  }

  /** A line is read as an entry exactly when it spells it. */
  lemma EntryIs(line: string, n: nat, e: TextEntry)
    ensures ParseEntry(line, n) == Ok(e) <==> EntrySpells(line, e)
  {
    var f := SplitN(line, ' ', 4);
    if |f| == 4 {
      EntryOfIs(line, n, f, e);
    }
    if ParseEntry(line, n) == Ok(e) {
      assert f == [f[0]] + ([f[1]] + ([f[2]] + [f[3]]));
      FourFields(line, f[0], f[1], f[2], f[3]);
      assert FieldsSpell(line, f[0], f[1], f[2], e);
    }
    if EntrySpells(line, e) {
      var letter, mode, third :| FieldsSpell(line, letter, mode, third, e);
      FourFields(line, letter, mode, third, e.path);
    }
  }

  // --------------------------------------------------------------------------- provides

  /** A soname, a `v` where its symbols carry versions and a dash where they do not, and the
      path. */
  predicate ProvideSpells(line: string, p: Provide<string>) {
    line == Three(p.soname, if p.versioned then "v" else "-", p.path) && ' ' !in p.soname
  }

  lemma ProvideIs(line: string, n: nat, p: Provide<string>)
    ensures ParseProvide(line, n) == Ok(p) <==> ProvideSpells(line, p)
  {
    assert "v" != "-" && ' ' !in "v" && ' ' !in "-";
    ThreeFields(line, p.soname, if p.versioned then "v" else "-", p.path);
    if ParseProvide(line, n) == Ok(p) {
      var f := SplitN(line, ' ', 3);
      assert f == [f[0]] + ([f[1]] + [f[2]]);
    }
  }

  // ----------------------------------------------------------------- version and queue

  /** The version as packaged, then the count of its packagings. */
  lemma VersionIs(text: string, v: Version)
    ensures Database.ParseVersion(text) == Ok(v) <==> |Words(text)| >= 2 && Words(text)[0] == v.upstream && DecimalIs(Words(text)[1], v.rev)
  {
    if |Words(text)| >= 2 {
      NumbersAre(Words(text)[1], v.rev);
    }
  }

  /** No fourth field. */
  lemma NoFourth(s: string, a: string, b: string, c: string)
    ensures SplitN(s, ' ', 4) == [a] + ([b] + [c]) <==> s == Three(a, b, c) && ' ' !in a && ' ' !in b && ' ' !in c
  {
    SplitOnce(s, 4, a, [b] + [c]);
    forall t: string ensures SplitN(t, ' ', 3) == [b] + [c] <==> t == Two(b, c) && ' ' !in b && ' ' !in c {
      SplitOnce(t, 3, b, [c]);
      forall u: string ensures SplitN(u, ' ', 2) == [c] <==> u == c && ' ' !in c {
        IndexFirst(u, ' ');
        assert u[..|u|] == u;
      }
    }
  }

  /** A target, the soname that changed, the package to rebuild, and the symbols that changed with a
      comma between each and the next, if any are named. */
  predicate QueuedSpells(line: string, e: Queue.Queued, changed: string) {
    && ' ' !in e.target && ' ' !in e.soname && ' ' !in e.name
    && (line == Four(e.target, e.soname, e.name, changed) || (line == Three(e.target, e.soname, e.name) && changed == ""))
    && e.changed == Queue.NonEmpty(Split(changed, ','))
  }

  lemma QueuedIs(line: string, n: nat, e: Queue.Queued)
    ensures Queue.ParseQueued(line, n) == Ok(e) <==> exists changed :: QueuedSpells(line, e, changed)
  {
    var f := SplitN(line, ' ', 4);
    if Queue.ParseQueued(line, n) == Ok(e) {
      if |f| == 4 {
        assert f == [f[0]] + ([f[1]] + ([f[2]] + [f[3]]));
        FourFields(line, f[0], f[1], f[2], f[3]);
        assert QueuedSpells(line, e, f[3]);
      } else {
        assert f == [f[0]] + ([f[1]] + [f[2]]);
        NoFourth(line, f[0], f[1], f[2]);
        assert QueuedSpells(line, e, "");
      }
    }
    if changed :| QueuedSpells(line, e, changed) {
      FourFields(line, e.target, e.soname, e.name, changed);
      NoFourth(line, e.target, e.soname, e.name);
    }
  }

  /** Queued rebuilds come by target, those of one target by package, those of one package by
      soname, and those of one soname by what changed. */
  lemma BeforeIs(a: Queue.Queued, b: Queue.Queued)
    ensures Queue.Before(a, b) <==>
      || Queue.TextLess(a.target, b.target)
      || (a.target == b.target && Queue.TextLess(a.name, b.name))
      || (a.target == b.target && a.name == b.name && Queue.TextLess(a.soname, b.soname))
      || (a.target == b.target && a.name == b.name && a.soname == b.soname && Order.Lex(Queue.TextLess, a.changed, b.changed))
  {
    LexFirst(a.soname, a.changed, b.soname, b.changed);
    LexFirst(a.name, [a.soname] + a.changed, b.name, [b.soname] + b.changed);
    LexFirst(a.target, [a.name] + ([a.soname] + a.changed), b.target, [b.name] + ([b.soname] + b.changed));
    assert Queue.Fields(a) == [a.target] + ([a.name] + ([a.soname] + a.changed));
    assert Queue.Fields(b) == [b.target] + ([b.name] + ([b.soname] + b.changed));
  }

  lemma LexFirst(x: string, s: seq<string>, y: string, t: seq<string>)
    ensures Order.Lex(Queue.TextLess, [x] + s, [y] + t) <==> Queue.TextLess(x, y) || (x == y && Order.Lex(Queue.TextLess, s, t))
  {
    assert ([x] + s)[1..] == s && ([y] + t)[1..] == t;
  }
}
