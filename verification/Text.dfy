/** The text operations the formats are made of: lines, fields, words, trimming, numbers. */
module Text {
  import opened Paths
  import opened Records

  function Index(s: string, c: char): (i: nat)
    ensures i <= |s|
  {
    if s == [] || s[0] == c then 0 else 1 + Index(s[1..], c)
  }

  lemma {:induction false} IndexAt(a: string, c: char, t: string)
    requires c !in a
    ensures Index(a + [c] + t, c) == |a|
  {
    var s := a + [c] + t;
    if a != [] {
      assert s[1..] == a[1..] + [c] + t;
      IndexAt(a[1..], c, t);
    }
  }

  lemma {:induction false} IndexFirst(s: string, c: char)
    ensures c !in s[..Index(s, c)] && (Index(s, c) < |s| ==> s[Index(s, c)] == c)
  {
    if s != [] && s[0] != c {
      IndexFirst(s[1..], c);
      var i := Index(s[1..], c);
      assert s[..i + 1] == [s[0]] + s[1..][..i];
    }
  }

  // ------------------------------------------------------------------------------ lines

  function StripCr(s: string): string {
    if s != [] && s[|s| - 1] == '\r' then s[..|s| - 1] else s
  }

  /** `lines`: a line ends at a line feed, which takes one carriage return with it; text after
      the last one is a line as it stands. */
  function Lines(s: string): seq<string>
    decreases |s|
  {
    if s == [] then []
    else
      var i := Index(s, '\n');
      if i == |s| then [s] else [StripCr(s[..i])] + Lines(s[i + 1..])
  }

  lemma LinesFirst(a: string, t: string)
    requires '\n' !in a
    ensures Lines(a + "\n" + t) == [StripCr(a)] + Lines(t)
  {
    IndexAt(a, '\n', t);
    var s := a + "\n" + t;
    assert s[..|a|] == a && s[|a| + 1..] == t;
  }

  lemma {:induction false} LinesClean(s: string)
    ensures forall l :: l in Lines(s) ==> '\n' !in l
    decreases |s|
  {
    if s != [] {
      var i := Index(s, '\n');
      IndexFirst(s, '\n');
      if i == |s| {
        assert s[..i] == s;
      } else {
        LinesClean(s[i + 1..]);
      }
    }
  }

  // ----------------------------------------------------------------------------- fields

  /** `splitn`: at most `n` fields, the last one with whatever separators are left. */
  function SplitN(s: string, sep: char, n: nat): (f: seq<string>)
    requires n > 0
    ensures 1 <= |f| <= n
    decreases n
  {
    var i := Index(s, sep);
    if n == 1 || i == |s| then [s] else [s[..i]] + SplitN(s[i + 1..], sep, n - 1)
  }

  lemma SplitNFirst(a: string, sep: char, t: string, n: nat)
    requires sep !in a && n > 1
    ensures SplitN(a + [sep] + t, sep, n) == [a] + SplitN(t, sep, n - 1)
  {
    IndexAt(a, sep, t);
    var s := a + [sep] + t;
    assert s[..|a|] == a && s[|a| + 1..] == t;
  }

  lemma {:induction false} SplitNWithin(s: string, sep: char, n: nat, c: char)
    requires n > 0
    ensures c !in s ==> forall f :: f in SplitN(s, sep, n) ==> c !in f
    ensures forall i :: 0 <= i < |SplitN(s, sep, n)| - 1 || i == |SplitN(s, sep, n)| - 1 < n - 1 ==> sep !in SplitN(s, sep, n)[i]
    decreases n
  {
    var i := Index(s, sep);
    IndexFirst(s, sep);
    if n > 1 {
      if i == |s| {
        assert s[..i] == s;
      } else {
        SplitNWithin(s[i + 1..], sep, n - 1, c);
      }
    }
  }

  // ------------------------------------------------------------------------------ words

  predicate Word(w: string) {
    w != [] && forall i :: 0 <= i < |w| ==> !White(w[i])
  }

  function TrimStart(s: string): string {
    if s == [] || !White(s[0]) then s else TrimStart(s[1..])
  }

  function TrimEnd(s: string): string
    decreases |s|
  {
    if s == [] || !White(s[|s| - 1]) then s else TrimEnd(s[..|s| - 1])
  }

  function Trim(s: string): string {
    TrimEnd(TrimStart(s))
  }

  /** Nothing to trim. */
  predicate Trimmed(s: string) {
    s == [] || (!White(s[0]) && !White(s[|s| - 1]))
  }

  lemma {:induction false} TrimEndKeeps(s: string)
    ensures TrimEnd(s) <= s && (TrimEnd(s) != [] ==> !White(TrimEnd(s)[|TrimEnd(s)| - 1]))
    decreases |s|
  {
    if s != [] && White(s[|s| - 1]) {
      TrimEndKeeps(s[..|s| - 1]);
    }
  }

  lemma {:induction false} TrimStartKeeps(s: string)
    ensures |TrimStart(s)| <= |s| && TrimStart(s) == s[|s| - |TrimStart(s)|..]
    ensures TrimStart(s) != [] ==> !White(TrimStart(s)[0])
  {
    if s != [] && White(s[0]) {
      TrimStartKeeps(s[1..]);
    }
  }

  /** Trimming leaves exactly what has nothing to trim. */
  lemma TrimTrimmed(s: string)
    ensures Trimmed(Trim(s)) && (Trim(s) == s <==> Trimmed(s))
    ensures forall c :: c in Trim(s) ==> c in s
  {
    TrimStartKeeps(s);
    TrimEndKeeps(TrimStart(s));
    var t, u := TrimStart(s), Trim(s);
    if u == s {
      assert t == s;
    }
  }

  lemma TrimLine(s: string, c: char)
    requires Trimmed(s) && White(c)
    ensures Trim(s + [c]) == s
  {
    var t := s + [c];
    if s == [] {
      assert t[1..] == [] && TrimStart([]) == [];
    } else {
      assert t[..|s|] == s && t[0] == s[0];
      assert TrimStart(t) == t && TrimEnd(s) == s;
    }
  }

  lemma {:induction false} TrimStartReaches(s: string, i: nat)
    requires i < |s| && !White(s[i])
    ensures |TrimStart(s)| >= |s| - i
  {
    if White(s[0]) {
      TrimStartReaches(s[1..], i - 1);
    }
  }

  lemma {:induction false} TrimEndReaches(s: string, i: nat)
    requires i < |s| && !White(s[i])
    ensures |TrimEnd(s)| > i
    decreases |s|
  {
    if White(s[|s| - 1]) {
      TrimEndReaches(s[..|s| - 1], i);
    }
  }

  /** Text with something in it is not all white space. */
  lemma TrimLeaves(s: string, i: nat)
    requires i < |s| && !White(s[i])
    ensures Trim(s) != []
  {
    TrimStartReaches(s, i);
    TrimStartKeeps(s);
    var t := TrimStart(s);
    TrimEndReaches(t, i - (|s| - |t|));
  }

  function WordLength(s: string): (n: nat)
    ensures n <= |s|
  {
    if s == [] || White(s[0]) then 0 else 1 + WordLength(s[1..])
  }

  lemma {:induction false} WordLengthAt(w: string, t: string)
    requires (forall i :: 0 <= i < |w| ==> !White(w[i])) && (t == [] || White(t[0]))
    ensures WordLength(w + t) == |w|
  {
    if w == [] {
      assert w + t == t;
    } else {
      assert (w + t)[1..] == w[1..] + t;
      WordLengthAt(w[1..], t);
    }
  }

  lemma {:induction false} WordLengthFirst(s: string)
    ensures forall i :: 0 <= i < WordLength(s) ==> !White(s[i])
  {
    if s != [] && !White(s[0]) {
      WordLengthFirst(s[1..]);
    }
  }

  /** `split_whitespace` */
  function Words(s: string): seq<string>
    decreases |s|
  {
    TrimStartKeeps(s);
    var t := TrimStart(s);
    if t == [] then []
    else [t[..WordLength(t)]] + Words(t[WordLength(t)..])
  }

  lemma WordsFirst(w: string, t: string)
    requires Word(w) && (t == [] || White(t[0]))
    ensures Words(w + t) == [w] + Words(t)
  {
    var s := w + t;
    assert TrimStart(s) == s;
    WordLengthAt(w, t);
    assert s[..|w|] == w && s[|w|..] == t;
  }

  lemma WordsSkip(c: char, t: string)
    requires White(c)
    ensures Words([c] + t) == Words(t)
  {
    assert ([c] + t)[1..] == t;
  }

  lemma {:induction false} WordsAreWords(s: string)
    ensures forall w :: w in Words(s) ==> Word(w)
    decreases |s|
  {
    TrimStartKeeps(s);
    var t := TrimStart(s);
    if t != [] {
      WordLengthFirst(t);
      WordsAreWords(t[WordLength(t)..]);
    }
  }

  // ---------------------------------------------------------------------------- numbers

  const U32_LIMIT := 0x1_0000_0000

  datatype Radix = Eight | Ten

  function Base(r: Radix): nat {
    match r case Eight => 8 case Ten => 10
  }

  function Shift(v: nat, d: nat, r: Radix): nat {
    match r case Eight => 8 * v + d case Ten => 10 * v + d
  }

  function High(n: nat, r: Radix): nat {
    match r case Eight => n / 8 case Ten => n / 10
  }

  function Low(n: nat, r: Radix): (d: nat)
    ensures d < Base(r) && Shift(High(n, r), d, r) == n
  {
    match r case Eight => n % 8 case Ten => n % 10
  }

  function DigitChar(d: nat): char
    requires d < 10
  {
    ((48 + d) as int) as char
  }

  function Digits(n: nat, r: Radix): string
    decreases n
  {
    if n < Base(r) then [DigitChar(n)] else Digits(High(n, r), r) + [DigitChar(Low(n, r))]
  }

  function DigitOf(c: char, r: Radix): Option<nat> {
    if 48 <= c as int < 48 + Base(r) then Some(c as int - 48) else None
  }

  function Value(s: string, r: Radix): Option<nat>
    decreases |s|
  {
    if s == [] then Some(0)
    else
      match Value(s[..|s| - 1], r)
      case None => None
      case Some(v) =>
        match DigitOf(s[|s| - 1], r)
        case None => None
        case Some(d) => Some(Shift(v, d, r))
  }

  /** A number as `u32` reads one: a plus sign may stand before it, and it has to fit. */
  function ParseU32(s: string, r: Radix): Option<nat> {
    var t := if |s| > 1 && s[0] == '+' then s[1..] else s;
    if t == [] || Value(t, r) == None || Value(t, r).value >= U32_LIMIT then None else Value(t, r)
  }

  lemma ValueMore(s: string, d: nat, r: Radix)
    requires d < Base(r) && Value(s, r).Some?
    ensures Value(s + [DigitChar(d)], r) == Some(Shift(Value(s, r).value, d, r))
  {
    var t := s + [DigitChar(d)];
    assert t[..|t| - 1] == s;
  }

  lemma {:induction false} ValueOfDigits(n: nat, r: Radix)
    ensures Value(Digits(n, r), r) == Some(n)
    decreases n
  {
    if n >= Base(r) {
      ValueOfDigits(High(n, r), r);
      ValueMore(Digits(High(n, r), r), Low(n, r), r);
    } else {
      var none: string := [];
      assert Value(none, r) == Some(0);
      ValueMore(none, n, r);
      assert none + [DigitChar(n)] == [DigitChar(n)];
    }
  }

  lemma {:induction false} DigitsAreDigits(n: nat, r: Radix)
    ensures |Digits(n, r)| > 0 && forall i :: 0 <= i < |Digits(n, r)| ==> '0' <= Digits(n, r)[i] <= '9'
    decreases n
  {
    if n >= Base(r) {
      DigitsAreDigits(High(n, r), r);
    }
  }

  /** Zeros in front, to a width. */
  function Padded(s: string, width: nat): string
    decreases width - |s|
  {
    if |s| < width then Padded(['0'] + s, width) else s
  }

  lemma {:induction false} ValueOfZero(s: string, r: Radix)
    ensures Value(['0'] + s, r) == Value(s, r)
    decreases |s|
  {
    var t := ['0'] + s;
    if s == [] {
      assert t[..0] == [];
    } else {
      assert t[..|t| - 1] == ['0'] + s[..|s| - 1];
      ValueOfZero(s[..|s| - 1], r);
    }
  }

  lemma {:induction false} PaddedValue(s: string, width: nat, r: Radix)
    requires s != [] && forall i :: 0 <= i < |s| ==> '0' <= s[i] <= '9'
    ensures Value(Padded(s, width), r) == Value(s, r)
    ensures Padded(s, width) != [] && forall i :: 0 <= i < |Padded(s, width)| ==> '0' <= Padded(s, width)[i] <= '9'
    decreases width - |s|
  {
    if |s| < width {
      ValueOfZero(s, r);
      PaddedValue(['0'] + s, width, r);
    }
  }

  /** `{:04o}` */
  function Octal(mode: nat): string {
    Padded(Digits(mode, Eight), 4)
  }

  lemma OctalBack(mode: nat)
    requires mode < U32_LIMIT
    ensures ParseU32(Octal(mode), Eight) == Some(mode)
    ensures forall i :: 0 <= i < |Octal(mode)| ==> '0' <= Octal(mode)[i] <= '9'
  {
    ValueOfDigits(mode, Eight);
    DigitsAreDigits(mode, Eight);
    PaddedValue(Digits(mode, Eight), 4, Eight);
  }

  lemma DecimalBack(n: nat)
    requires n < U32_LIMIT
    ensures ParseU32(Digits(n, Ten), Ten) == Some(n) && Word(Digits(n, Ten))
  {
    ValueOfDigits(n, Ten);
    DigitsAreDigits(n, Ten);
  }
}
