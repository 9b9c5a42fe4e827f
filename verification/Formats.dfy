/** The text formats of the database: manifests, provides, versions and dependencies.
    db.rs and pkg.rs. */
module Formats {
  import opened Paths
  import opened Records
  import opened Text

  datatype Why =
    | FourFields | NotOctal | NotSha | DirField | KindWord | NoPath | Absolute | ThreeFields | FlagWord

  datatype Fault = Line(n: nat, why: Why) | BadPath(text: string) | BadVersion(text: string) | Required(file: string) | NoPackage

  datatype Result<+T> = Ok(value: T) | Err(fault: Fault)

  // --------------------------------------------------------------------------- manifest

  predicate HexDigit(c: char) {
    '0' <= c <= '9' || 'a' <= c <= 'f' || 'A' <= c <= 'F'
  }

  predicate Sha(s: string) {
    |s| == 64 && forall i :: 0 <= i < |s| ==> HexDigit(s[i])
  }

  datatype KindField = Is(kind: Kind<string, string>) | Bad(why: Why)

  function ParseKind(letter: string, third: string): KindField {
    if letter == "f" then if Sha(third) then Is(File(third)) else Bad(NotSha)
    else if letter == "d" then if third == "-" then Is(Dir) else Bad(DirField)
    else if letter == "l" then Is(Link(third))
    else if letter == "h" then Is(Hard(third))
    else Bad(KindWord)
  }

  /** The fourth field is all that is left of the line, spaces and all. */
  function ParseEntry(line: string, n: nat): Result<TextEntry> {
    var f := SplitN(line, ' ', 4);
    if |f| < 4 then Err(Line(n, FourFields)) else EntryOf(ParseU32(f[1], Eight), ParseKind(f[0], f[2]), f[3], n)
  }

  function EntryOf(mode: Option<nat>, kind: KindField, path: string, n: nat): Result<TextEntry> {
    if mode.None? then Err(Line(n, NotOctal))
    else if kind.Bad? then Err(Line(n, kind.why))
    else if path == [] then Err(Line(n, NoPath))
    else if path[0] == '/' then Err(Line(n, Absolute))
    else Ok(Entry(mode.value, kind.kind, path))
  }

  function Letter(k: Kind<string, string>): char {
    match k case File(_) => 'f' case Dir => 'd' case Link(_) => 'l' case Hard(_) => 'h'
  }

  function Third(k: Kind<string, string>): string {
    match k case File(h) => h case Dir => "-" case Link(t) => t case Hard(t) => t
  }

  function Field(a: string, rest: string): string {
    a + [' '] + rest
  }

  function ShowEntry(e: TextEntry): string {
    Field([Letter(e.kind)], Field(Octal(e.mode), Field(Third(e.kind), e.path)))
  }

  /** The lines from number `n` on; an empty one is skipped, the first bad one is the answer. */
  function ParseLines(ls: seq<string>, n: nat): Result<seq<TextEntry>>
    decreases |ls|
  {
    if ls == [] then Ok([])
    else if ls[0] == [] then ParseLines(ls[1..], n + 1)
    else
      match ParseEntry(ls[0], n)
      case Err(e) => Err(e)
      case Ok(e) =>
        match ParseLines(ls[1..], n + 1)
        case Err(f) => Err(f)
        case Ok(rest) => Ok([e] + rest)
  }

  function Manifest(text: string): Result<seq<TextEntry>> {
    ParseLines(Lines(text), 1)
  }

  /** What the third field can spell: text without a space or a line break. */
  predicate Positional(k: Kind<string, string>) {
    match k
    case Link(t) => ' ' !in t && '\n' !in t
    case Hard(t) => ' ' !in t && '\n' !in t
    case _ => true
  }

  predicate Formattable(e: TextEntry) {
    e.path != [] && e.path[0] != '/' && '\n' !in e.path && Positional(e.kind)
  }

  function BadText(e: TextEntry): string {
    if e.path == [] || e.path[0] == '/' || '\n' in e.path then e.path else Third(e.kind)
  }

  function FormatManifest(es: seq<TextEntry>): Result<string> {
    if es == [] then Ok("")
    else if !Formattable(es[0]) then Err(BadPath(BadText(es[0])))
    else
      match FormatManifest(es[1..])
      case Err(f) => Err(f)
      case Ok(rest) => Ok(ShowEntry(es[0]) + "\n" + rest)
  }

  predicate Plain(path: string) {
    path != [] ==> path[|path| - 1] != '\r'
  }

  /** An entry the manifest gives back as it was put in. */
  predicate Faithful(e: TextEntry) {
    (e.kind.File? ==> Sha(e.kind.sum)) && Plain(e.path)
  }

  ghost predicate Modes(es: seq<TextEntry>) {
    forall e :: e in es ==> e.mode < U32_LIMIT
  }

  lemma ThirdClean(e: TextEntry)
    requires Positional(e.kind) && (e.kind.File? ==> Sha(e.kind.sum))
    ensures ' ' !in Third(e.kind) && '\n' !in Third(e.kind)
  {
  }

  lemma ShowFields(e: TextEntry)
    requires Positional(e.kind) && (e.kind.File? ==> Sha(e.kind.sum)) && e.mode < U32_LIMIT
    ensures SplitN(ShowEntry(e), ' ', 4) == [[Letter(e.kind)], Octal(e.mode), Third(e.kind), e.path]
  {
    ThirdClean(e);
    OctalBack(e.mode);
    FieldsBack([Letter(e.kind)], Octal(e.mode), Third(e.kind), e.path);
  }

  lemma FieldsBack(a: string, b: string, c: string, d: string)
    requires ' ' !in a && ' ' !in b && ' ' !in c
    ensures SplitN(Field(a, Field(b, Field(c, d))), ' ', 4) == [a, b, c, d]
  {
    SplitNFirst(a, ' ', Field(b, Field(c, d)), 4);
    SplitNFirst(b, ' ', Field(c, d), 3);
    SplitNFirst(c, ' ', d, 2);
    assert SplitN(d, ' ', 1) == [d];
  }

  /** One line gives its entry back, if the path is one. */
  lemma EntryBack(e: TextEntry, n: nat)
    requires Positional(e.kind) && (e.kind.File? ==> Sha(e.kind.sum)) && e.mode < U32_LIMIT
    ensures ParseEntry(ShowEntry(e), n) ==
      if e.path == [] then Err(Line(n, NoPath)) else if e.path[0] == '/' then Err(Line(n, Absolute)) else Ok(e)
  {
    ShowFields(e);
    OctalBack(e.mode);
    KindBack(e.kind);
  }

  lemma KindBack(k: Kind<string, string>)
    requires k.File? ==> Sha(k.sum)
    ensures ParseKind([Letter(k)], Third(k)) == Is(k)
  {
    assert "f"[0] == 'f' && "d"[0] == 'd' && "l"[0] == 'l' && "h"[0] == 'h';
  }

  lemma ShowClean(e: TextEntry)
    requires Formattable(e) && (e.kind.File? ==> Sha(e.kind.sum)) && e.mode < U32_LIMIT
    ensures '\n' !in ShowEntry(e)
    ensures StripCr(ShowEntry(e)) == ShowEntry(e.(path := StripCr(e.path)))
  {
    ThirdClean(e);
    OctalBack(e.mode);
    var s, p := ShowEntry(e), StripCr(e.path);
    assert s[|s| - 1] == e.path[|e.path| - 1];
    if p != e.path {
      assert s[..|s| - 1] == ShowEntry(e.(path := p));
    }
  }

  /** A line of a formatted manifest loses the carriage return its path ends in. */
  lemma LineBack(e: TextEntry, n: nat)
    requires Formattable(e) && (e.kind.File? ==> Sha(e.kind.sum)) && e.mode < U32_LIMIT
    ensures StripCr(ShowEntry(e)) != []
    ensures ParseEntry(StripCr(ShowEntry(e)), n) == Ok(e) <==> Faithful(e)
  {
    ShowClean(e);
    var stripped := e.(path := StripCr(e.path));
    EntryBack(stripped, n);
    assert ShowEntry(stripped)[0] == Letter(e.kind);
  }

  lemma ParseLinesStep(line: string, rest: seq<string>, n: nat, es: seq<TextEntry>)
    requires line != [] && es != []
    ensures ParseLines([line] + rest, n) == Ok(es) <==> ParseEntry(line, n) == Ok(es[0]) && ParseLines(rest, n + 1) == Ok(es[1..])
  {
    var ls := [line] + rest;
    assert ls[0] == line && ls[1..] == rest;
    assert es == [es[0]] + es[1..];
    if ParseLines(ls, n) == Ok(es) {
      var e, more := ParseEntry(line, n).value, ParseLines(rest, n + 1).value;
      assert es == [e] + more && es[0] == e && es[1..] == more;
    }
  }

  lemma FirstEntryBack(es: seq<TextEntry>, rest: string, n: nat)
    requires es != [] && Formattable(es[0]) && (es[0].kind.File? ==> Sha(es[0].kind.sum)) && es[0].mode < U32_LIMIT
    ensures ParseLines(Lines(ShowEntry(es[0]) + "\n" + rest), n) == Ok(es) <==> Faithful(es[0]) && ParseLines(Lines(rest), n + 1) == Ok(es[1..])
  {
    var line := ShowEntry(es[0]);
    ShowClean(es[0]);
    LinesFirst(line, rest);
    LineBack(es[0], n);
    ParseLinesStep(StripCr(line), Lines(rest), n, es);
  }

  lemma {:induction false} FormattedParses(es: seq<TextEntry>, n: nat)
    requires FormatManifest(es).Ok? && Modes(es) && forall e :: e in es && e.kind.File? ==> Sha(e.kind.sum)
    ensures ParseLines(Lines(FormatManifest(es).value), n) == Ok(es) <==> forall e :: e in es ==> Faithful(e)
    decreases |es|
  {
    if es != [] {
      assert es[0] in es && es == [es[0]] + es[1..];
      FormattedParses(es[1..], n + 1);
      FirstEntryBack(es, FormatManifest(es[1..]).value, n);
    }
  }

  /** Whatever is parsed can be formatted again, and its hashes are hashes. */
  lemma EntryParsed(line: string, n: nat)
    requires '\n' !in line && ParseEntry(line, n).Ok?
    ensures var e := ParseEntry(line, n).value; Formattable(e) && e.mode < U32_LIMIT && (e.kind.File? ==> Sha(e.kind.sum))
  {
    SplitNWithin(line, ' ', 4, '\n');
    var f := SplitN(line, ' ', 4);
    assert f[2] in f && f[3] in f;
  }

  lemma {:induction false} LinesParsed(ls: seq<string>, n: nat)
    requires (forall l :: l in ls ==> '\n' !in l) && ParseLines(ls, n).Ok?
    ensures var es := ParseLines(ls, n).value;
      FormatManifest(es).Ok? && Modes(es) && forall e :: e in es && e.kind.File? ==> Sha(e.kind.sum)
    decreases |ls|
  {
    if ls != [] {
      LinesParsed(ls[1..], n + 1);
      if ls[0] != [] {
        EntryParsed(ls[0], n);
        var es := ParseLines(ls, n).value;
        assert es[1..] == ParseLines(ls[1..], n + 1).value;
      }
    }
  }

  lemma ParsedFormats(text: string)
    requires Manifest(text).Ok?
    ensures FormatManifest(Manifest(text).value).Ok?
  {
    LinesClean(text);
    LinesParsed(Lines(text), 1);
  }

  /** A manifest comes back as it was written exactly when its hashes are hashes and no path
      ends in a carriage return. */
  lemma ManifestSurvives(es: seq<TextEntry>)
    requires FormatManifest(es).Ok? && Modes(es)
    ensures Manifest(FormatManifest(es).value) == Ok(es) <==> forall e :: e in es ==> Faithful(e)
  {
    var text := FormatManifest(es).value;
    if Manifest(text) == Ok(es) {
      LinesClean(text);
      LinesParsed(Lines(text), 1);
    }
    if forall e :: e in es && e.kind.File? ==> Sha(e.kind.sum) {
      FormattedParses(es, 1);
    }
  }

  method ParseManifest(text: string) returns (r: Result<seq<TextEntry>>)
    ensures r == Manifest(text)
  {
    var ls := Lines(text);
    var out: seq<TextEntry> := [];
    ghost var whole := Manifest(text);
    assert ls[0..] == ls;
    assert forall es: seq<TextEntry> :: out + es == es;
    for i := 0 to |ls|
      invariant whole == Onto(out, ParseLines(ls[i..], i + 1))
    {
      assert ls[i..][0] == ls[i] && ls[i..][1..] == ls[i + 1..];
      if ls[i] == [] {
        continue;
      }
      var e := ParseEntry(ls[i], i + 1);
      if e.Err? {
        return Err(e.fault);
      }
      OntoOnto(out, [e.value], ParseLines(ls[i + 1..], i + 2));
      out := out + [e.value];
    }
    assert out + [] == out;
    return Ok(out);
  }

  function Onto<T>(out: seq<T>, r: Result<seq<T>>): Result<seq<T>> {
    match r case Err(f) => Err(f) case Ok(rest) => Ok(out + rest)
  }

  lemma OntoOnto<T>(a: seq<T>, b: seq<T>, r: Result<seq<T>>)
    ensures Onto(a + b, r) == Onto(a, Onto(b, r))
  {
    if r.Ok? { assert a + (b + r.value) == (a + b) + r.value; }
  }

  method WriteManifest(es: seq<TextEntry>) returns (r: Result<string>)
    ensures r == FormatManifest(es)
  {
    var out := "";
    ghost var whole := FormatManifest(es);
    assert es[0..] == es;
    assert forall s: string :: out + s == s;
    for i := 0 to |es|
      invariant whole == Onto(out, FormatManifest(es[i..]))
    {
      assert es[i..][0] == es[i] && es[i..][1..] == es[i + 1..];
      var e := es[i];
      if e.path == [] || e.path[0] == '/' || '\n' in e.path {
        return Err(BadPath(e.path));
      }
      if e.kind.Link? || e.kind.Hard? {
        var t := Third(e.kind);
        if ' ' in t || '\n' in t {
          return Err(BadPath(t));
        }
      }
      OntoOnto(out, ShowEntry(e) + "\n", FormatManifest(es[i + 1..]));
      out := out + (ShowEntry(e) + "\n");
    }
    assert out + [] == out;
    return Ok(out);
  }

  // --------------------------------------------------------------------------- provides

  function Flag(versioned: bool): string {
    if versioned then "v" else "-"
  }

  function ShowProvide(p: Provide<string>): string {
    Field(p.soname, Field(Flag(p.versioned), p.path))
  }

  predicate Unspaced(s: string) {
    forall i :: 0 <= i < |s| ==> !White(s[i])
  }

  predicate Providable(p: Provide<string>) {
    Unspaced(p.soname) && '\n' !in p.path && (p.path == [] || p.path[0] != '/')
  }

  function FormatProvides(ps: seq<Provide<string>>): Result<string> {
    if ps == [] then Ok("")
    else if !Providable(ps[0]) then Err(BadPath(if Unspaced(ps[0].soname) then ps[0].path else ps[0].soname))
    else
      match FormatProvides(ps[1..])
      case Err(f) => Err(f)
      case Ok(rest) => Ok(ShowProvide(ps[0]) + "\n" + rest)
  }

  function ParseProvide(line: string, n: nat): Result<Provide<string>> {
    var f := SplitN(line, ' ', 3);
    if |f| < 3 then Err(Line(n, ThreeFields))
    else if f[1] == "v" then Ok(Provide(f[0], true, f[2]))
    else if f[1] == "-" then Ok(Provide(f[0], false, f[2]))
    else Err(Line(n, FlagWord))
  }

  function ProvideLines(ls: seq<string>, n: nat): Result<seq<Provide<string>>>
    decreases |ls|
  {
    if ls == [] then Ok([])
    else if Trim(ls[0]) == [] then ProvideLines(ls[1..], n + 1)
    else
      match ParseProvide(ls[0], n)
      case Err(e) => Err(e)
      case Ok(p) =>
        match ProvideLines(ls[1..], n + 1)
        case Err(f) => Err(f)
        case Ok(rest) => Ok([p] + rest)
  }

  function Provides(text: string): Result<seq<Provide<string>>> {
    ProvideLines(Lines(text), 1)
  }

  lemma ProvideBack(p: Provide<string>, n: nat)
    requires Unspaced(p.soname)
    ensures ParseProvide(ShowProvide(p), n) == Ok(p) && Trim(ShowProvide(p)) != []
  {
    var b := Field(Flag(p.versioned), p.path);
    SplitNFirst(p.soname, ' ', b, 3);
    SplitNFirst(Flag(p.versioned), ' ', p.path, 2);
    assert SplitN(p.path, ' ', 1) == [p.path];
    var i := |p.soname| + 1;
    assert ShowProvide(p)[i] == Flag(p.versioned)[0];
    TrimLeaves(ShowProvide(p), i);
  }

  lemma ShowProvideLine(p: Provide<string>)
    requires Providable(p)
    ensures '\n' !in ShowProvide(p)
    ensures StripCr(ShowProvide(p)) == ShowProvide(p.(path := StripCr(p.path)))
  {
    var front := p.soname + [' '] + Flag(p.versioned) + [' '];
    assert forall path: string :: ShowProvide(p.(path := path)) == front + path;
    assert ShowProvide(p) == front + p.path;
    assert '\n' !in front;
    StripBehind(front, p.path);
  }

  /** A carriage return at the end of a path is one at the end of its line. */
  lemma StripBehind(front: string, path: string)
    requires front != [] && front[|front| - 1] != '\r'
    ensures StripCr(front + path) == front + StripCr(path)
  {
    if path == [] {
      assert front + path == front;
    } else {
      var s := front + path;
      assert s[..|s| - 1] == front + path[..|path| - 1];
    }
  }

  lemma ProvideLineBack(p: Provide<string>, n: nat)
    requires Providable(p)
    ensures '\n' !in ShowProvide(p) && Trim(StripCr(ShowProvide(p))) != []
    ensures ParseProvide(StripCr(ShowProvide(p)), n) == Ok(p) <==> Plain(p.path)
  {
    ShowProvideLine(p);
    ProvideBack(p.(path := StripCr(p.path)), n);
  }

  lemma ProvideLinesStep(line: string, rest: seq<string>, n: nat, ps: seq<Provide<string>>)
    requires Trim(line) != [] && ps != []
    ensures ProvideLines([line] + rest, n) == Ok(ps) <==> ParseProvide(line, n) == Ok(ps[0]) && ProvideLines(rest, n + 1) == Ok(ps[1..])
  {
    var ls := [line] + rest;
    assert ls[0] == line && ls[1..] == rest;
    assert ps == [ps[0]] + ps[1..];
    if ProvideLines(ls, n) == Ok(ps) {
      var p, more := ParseProvide(line, n).value, ProvideLines(rest, n + 1).value;
      assert ps == [p] + more && ps[0] == p && ps[1..] == more;
    }
  }

  lemma FirstProvideBack(ps: seq<Provide<string>>, rest: string, n: nat)
    requires ps != [] && Providable(ps[0])
    ensures ProvideLines(Lines(ShowProvide(ps[0]) + "\n" + rest), n) == Ok(ps) <==> Plain(ps[0].path) && ProvideLines(Lines(rest), n + 1) == Ok(ps[1..])
  {
    var line := ShowProvide(ps[0]);
    ProvideLineBack(ps[0], n);
    LinesFirst(line, rest);
    ProvideLinesStep(StripCr(line), Lines(rest), n, ps);
  }

  lemma {:induction false} ProvideLinesBack(ps: seq<Provide<string>>, n: nat)
    requires FormatProvides(ps).Ok?
    ensures ProvideLines(Lines(FormatProvides(ps).value), n) == Ok(ps) <==> forall p :: p in ps ==> Plain(p.path)
    decreases |ps|
  {
    if ps != [] {
      var rest := FormatProvides(ps[1..]).value;
      ProvideLinesBack(ps[1..], n + 1);
      FirstProvideBack(ps, rest, n);
      assert ps == [ps[0]] + ps[1..];
    }
  }

  /** Provides come back as they were written exactly when no path ends in a carriage return. */
  lemma ProvidesSurvive(ps: seq<Provide<string>>)
    requires FormatProvides(ps).Ok?
    ensures Provides(FormatProvides(ps).value) == Ok(ps) <==> forall p :: p in ps ==> Plain(p.path)
  {
    ProvideLinesBack(ps, 1);
  }
}
