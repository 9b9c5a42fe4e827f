/** A package's record as a directory of text files: `write` and `read` in db.rs, with the
    line formats of pkg.rs. */
module Database {
  import opened Paths
  import opened Records
  import opened Text
  import opened Formats

  // ---------------------------------------------------------------------------- version

  function ShowVersion(v: Version): string {
    v.upstream + [' '] + Digits(v.rev, Ten)
  }

  function ParseVersion(text: string): Result<Version> {
    var ws := Words(text);
    if |ws| < 2 then Err(BadVersion(Trim(text)))
    else
      match ParseU32(ws[1], Ten)
      case None => Err(BadVersion(Trim(text)))
      case Some(rev) => Ok(Version(ws[0], rev))
  }

  lemma VersionWords(v: Version)
    requires Word(v.upstream) && Word(Digits(v.rev, Ten))
    ensures Words(ShowVersion(v) + "\n") == [v.upstream, Digits(v.rev, Ten)]
  {
    var text, rev := ShowVersion(v) + "\n", Digits(v.rev, Ten);
    WordsFirst(rev, "\n");
    WordsSkip(' ', rev + "\n");
    WordsFirst(v.upstream, [' '] + (rev + "\n"));
    assert text == v.upstream + ([' '] + (rev + "\n"));
    WordsSkip('\n', "");
  }

  /** A version reads back exactly when its upstream part is one word. */
  lemma VersionSurvives(v: Version)
    requires v.rev < U32_LIMIT
    ensures ParseVersion(ShowVersion(v) + "\n") == Ok(v) <==> Word(v.upstream)
  {
    WordsAreWords(ShowVersion(v) + "\n");
    if Word(v.upstream) {
      DecimalBack(v.rev);
      VersionWords(v);
    }
  }

  // ------------------------------------------------------------------------------ lines

  /** `lines`: trimmed, without blanks and comments. */
  function Content(ls: seq<string>): seq<string> {
    if ls == [] then []
    else
      var l := Trim(ls[0]);
      (if l == [] || l[0] == '#' then [] else [l]) + Content(ls[1..])
  }

  function Terminated(ls: seq<string>): string {
    if ls == [] then "" else ls[0] + "\n" + Terminated(ls[1..])
  }

  /** A line the file gives back as it was put in. */
  predicate CleanLine(l: string) {
    l != [] && Trimmed(l) && '\n' !in l && l[0] != '#'
  }

  lemma {:induction false} ContentClean(ls: seq<string>)
    requires forall l :: l in ls ==> '\n' !in l
    ensures forall l :: l in Content(ls) ==> CleanLine(l)
  {
    if ls != [] {
      ContentClean(ls[1..]);
      TrimTrimmed(ls[0]);
    }
  }

  lemma ContentStep(l: string, rest: seq<string>)
    requires CleanLine(l)
    ensures Content([l] + rest) == [l] + Content(rest)
  {
    TrimTrimmed(l);
    var all := [l] + rest;
    assert all[0] == l && all[1..] == rest;
  }

  lemma {:induction false} ContentBack(ls: seq<string>)
    requires forall l :: l in ls ==> CleanLine(l)
    ensures Content(Lines(Terminated(ls))) == ls
  {
    if ls != [] {
      var l, rest := ls[0], Terminated(ls[1..]);
      assert l in ls;
      ContentBack(ls[1..]);
      LinesFirst(l, rest);
      assert StripCr(l) == l;
      ContentStep(l, Lines(rest));
      assert ls == [l] + ls[1..];
    }
  }

  /** Lines come back exactly when they are clean. */
  lemma LinesSurvive(ls: seq<string>)
    ensures Content(Lines(Terminated(ls))) == ls <==> forall l :: l in ls ==> CleanLine(l)
  {
    LinesClean(Terminated(ls));
    ContentClean(Lines(Terminated(ls)));
    if forall l :: l in ls ==> CleanLine(l) {
      ContentBack(ls);
    }
  }

  lemma {:induction false} JoinTerminates(ls: seq<string>)
    requires ls != []
    ensures Join(ls, '\n') + "\n" == Terminated(ls)
  {
    if |ls| > 1 {
      JoinTerminates(ls[1..]);
      var rest := Join(ls[1..], '\n');
      assert ls[0] + "\n" + rest + "\n" == ls[0] + "\n" + (rest + "\n");
    } else {
      assert ls[1..] == [];
      assert Terminated(ls) == ls[0] + "\n" + "";
    }
  }

  // ----------------------------------------------------------------------- dependencies

  /** The words behind a dependency's name. */
  function Suffixes(d: Dep): seq<string> {
    (if d.make then [if d.host then "make" else "build"] else []) + (if d.only.Some? then [d.only.value] else [])
  }

  /** Words with a space before each. */
  function Spaced(ws: seq<string>): string {
    if ws == [] then "" else [' '] + ws[0] + Spaced(ws[1..])
  }

  function ShowDep(d: Dep): string {
    d.name + Spaced(Suffixes(d))
  }

  /** A suffix word is recognized wherever it stands after the name. */
  function TakeWord(d: Dep, w: string): Dep {
    if w == "make" then d.(make := true, host := true)
    else if w == "build" then d.(make := true, host := false)
    else d.(only := Some(w))
  }

  function TakeWords(d: Dep, ws: seq<string>): Dep
    decreases |ws|
  {
    if ws == [] then d else TakeWords(TakeWord(d, ws[0]), ws[1..])
  }

  function DepFrom(ws: seq<string>): Dep
    requires ws != []
  {
    TakeWords(Dep(ws[0], false, false, None), ws[1..])
  }

  function DependsFrom(ls: seq<string>): seq<Dep> {
    if ls == [] then []
    else (if Words(ls[0]) == [] then [] else [DepFrom(Words(ls[0]))]) + DependsFrom(ls[1..])
  }

  method ReadDepends(ls: seq<string>) returns (out: seq<Dep>)
    ensures out == DependsFrom(ls)
  {
    out := [];
    ghost var whole := DependsFrom(ls);
    assert ls[0..] == ls && out + whole == whole;
    for i := 0 to |ls|
      invariant whole == out + DependsFrom(ls[i..])
    {
      assert ls[i..][0] == ls[i] && ls[i..][1..] == ls[i + 1..];
      ghost var rest := DependsFrom(ls[i + 1..]);
      var f := Words(ls[i]);
      if f == [] {
        assert [] + rest == rest;
        continue;
      }
      var d := Dep(f[0], false, false, None);
      for k := 1 to |f|
        invariant TakeWords(d, f[k..]) == DepFrom(f)
      {
        assert f[k..][0] == f[k] && f[k..][1..] == f[k + 1..];
        d := TakeWord(d, f[k]);
      }
      assert out + ([d] + rest) == (out + [d]) + rest;
      out := out + [d];
    }
    assert out + [] == out;
  }

  /** A dependency its line gives back. */
  predicate CleanDep(d: Dep) {
    && Word(d.name) && d.name[0] != '#' && (d.host ==> d.make)
    && (d.only.Some? ==> Word(d.only.value) && d.only.value != "make" && d.only.value != "build")
  }

  lemma {:induction false} SpacedWords(ws: seq<string>)
    requires forall w :: w in ws ==> Word(w)
    ensures Words(Spaced(ws)) == ws
    ensures Spaced(ws) != [] ==> White(Spaced(ws)[0])
  {
    if ws != [] {
      var w, rest := ws[0], Spaced(ws[1..]);
      assert w in ws && ws == [w] + ws[1..];
      SpacedWords(ws[1..]);
      WordsFirst(w, rest);
      WordsSkip(' ', w + rest);
      assert Spaced(ws) == [' '] + (w + rest);
    }
  }

  lemma {:induction false} SpacedEnds(ws: seq<string>)
    requires forall w :: w in ws ==> Word(w)
    ensures Spaced(ws) != [] ==> !White(Spaced(ws)[|Spaced(ws)| - 1])
    ensures '\n' !in Spaced(ws)
  {
    if ws != [] {
      var w, rest, s := ws[0], Spaced(ws[1..]), Spaced(ws);
      assert w in ws && ws == [w] + ws[1..];
      SpacedEnds(ws[1..]);
      assert '\n' !in w;
      assert s[|s| - 1] == if rest == [] then w[|w| - 1] else rest[|rest| - 1];
    }
  }

  lemma SuffixWords(d: Dep)
    requires CleanDep(d)
    ensures forall w :: w in Suffixes(d) ==> Word(w)
  {
    assert Word("make") && Word("build");
    assert forall w :: w in Suffixes(d) ==> w == "make" || w == "build" || d.only == Some(w);
  }

  lemma DepBack(d: Dep)
    requires CleanDep(d)
    ensures CleanLine(ShowDep(d)) && Words(ShowDep(d)) == [d.name] + Suffixes(d)
  {
    var ws := Suffixes(d);
    SuffixWords(d);
    SpacedWords(ws);
    SpacedEnds(ws);
    WordsFirst(d.name, Spaced(ws));
    var l := ShowDep(d);
    assert l[0] == d.name[0] && '\n' !in d.name;
    assert l[|l| - 1] == if Spaced(ws) == [] then d.name[|d.name| - 1] else Spaced(ws)[|Spaced(ws)| - 1];
  }

  lemma DepFromWords(d: Dep)
    requires CleanDep(d)
    ensures DepFrom([d.name] + Suffixes(d)) == d
  {
    var kind, only, ws := if d.host then "make" else "build", d.only, Suffixes(d);
    var plain := Dep(d.name, false, false, None);
    assert ([d.name] + ws)[1..] == ws;
    assert "make" != "build";
    if d.make {
      assert ws[0] == kind && ws[1..] == if only.Some? then [only.value] else [];
      assert TakeWords(plain, ws) == TakeWords(TakeWord(plain, kind), ws[1..]);
      OnlyTaken(TakeWord(plain, kind), only);
    } else {
      assert ws == if only.Some? then [only.value] else [];
      OnlyTaken(plain, only);
    }
  }

  lemma OnlyTaken(d: Dep, only: Option<string>)
    requires d.only == None && (only.Some? ==> only.value != "make" && only.value != "build")
    ensures TakeWords(d, if only.Some? then [only.value] else []) == d.(only := only)
  {
    if only.Some? {
      var ws := [only.value];
      assert ws[1..] == [];
    }
  }

  function DepLines(ds: seq<Dep>): seq<string> {
    if ds == [] then [] else [ShowDep(ds[0])] + DepLines(ds[1..])
  }

  lemma {:induction false} DepLinesBack(ds: seq<Dep>)
    requires forall d :: d in ds ==> CleanDep(d)
    ensures DependsFrom(DepLines(ds)) == ds && forall l :: l in DepLines(ds) ==> CleanLine(l)
  {
    if ds != [] {
      assert ds[0] in ds && ds == [ds[0]] + ds[1..];
      DepLinesBack(ds[1..]);
      DepBack(ds[0]);
      DepFromWords(ds[0]);
      var ls := DepLines(ds);
      assert ls[0] == ShowDep(ds[0]) && ls[1..] == DepLines(ds[1..]);
    }
  }

  lemma {:induction false} TakenClean(d: Dep, ws: seq<string>)
    requires CleanDep(d) && forall w :: w in ws ==> Word(w)
    ensures CleanDep(TakeWords(d, ws))
    decreases |ws|
  {
    if ws != [] {
      TakenClean(TakeWord(d, ws[0]), ws[1..]);
    }
  }

  lemma FirstWord(l: string)
    requires CleanLine(l)
    ensures Words(l) != [] && Words(l)[0][0] == l[0]
  {
    assert TrimStart(l) == l;
  }

  lemma {:induction false} DependsClean(ls: seq<string>)
    requires forall l :: l in ls ==> CleanLine(l)
    ensures forall d :: d in DependsFrom(ls) ==> CleanDep(d)
  {
    if ls != [] {
      DependsClean(ls[1..]);
      FirstWord(ls[0]);
      WordsAreWords(ls[0]);
      var ws := Words(ls[0]);
      TakenClean(Dep(ws[0], false, false, None), ws[1..]);
    }
  }

  function DepText(ds: seq<Dep>): string {
    Terminated(DepLines(ds))
  }

  /** Dependencies come back exactly when they are clean: names and suffixes are words, no
      name starts a comment, no suffix is `make` or `build`, and what resolves under the host
      is build-time only. */
  lemma DependsSurvive(ds: seq<Dep>)
    ensures DependsFrom(Content(Lines(DepText(ds)))) == ds <==> forall d :: d in ds ==> CleanDep(d)
  {
    LinesClean(DepText(ds));
    ContentClean(Lines(DepText(ds)));
    DependsClean(Content(Lines(DepText(ds))));
    if forall d :: d in ds ==> CleanDep(d) {
      DepLinesBack(ds);
      ContentBack(DepLines(ds));
    }
  }

  // ------------------------------------------------------------------------- the record

  datatype Record = Record(
    version: Version, depends: seq<Dep>, manifest: seq<TextEntry>,
    hash: string, users: seq<string>, flags: seq<string>)

  type Files = map<string, string>

  function LinesOf(files: Files, name: string): seq<string> {
    if name in files then Content(Lines(files[name])) else []
  }

  function ReadRecord(files: Files): Result<Record> {
    if "version" !in files then Err(Required("version"))
    else
      match ParseVersion(files["version"])
      case Err(f) => Err(f)
      case Ok(version) =>
        if "manifest" !in files then Err(Required("manifest"))
        else
          match Manifest(files["manifest"])
          case Err(f) => Err(f)
          case Ok(manifest) =>
            Ok(Record(version, DependsFrom(LinesOf(files, "depends")), manifest,
                      if "hash" in files then Trim(files["hash"]) else "",
                      LinesOf(files, "users"), LinesOf(files, "flags")))
  }

  /** A file the record has nothing for is taken away, or an earlier record's outlives it. */
  function PutOrGone(files: Files, name: string, v: string): Files {
    if v == [] then files - {name} else files[name := v + "\n"]
  }

  function WriteRecord(before: Files, rec: Record): Result<Files> {
    match FormatManifest(rec.manifest)
    case Err(f) => Err(f)
    case Ok(manifest) =>
      var a := before["version" := ShowVersion(rec.version) + "\n"]["depends" := DepText(rec.depends)];
      var b := PutOrGone(PutOrGone(PutOrGone(a, "hash", rec.hash), "users", Join(rec.users, '\n')), "flags", Join(rec.flags, '\n'));
      Ok(b["manifest" := manifest])
  }

  /** What the formats can hold. */
  predicate CleanRecord(rec: Record) {
    && Word(rec.version.upstream)
    && (forall d <- rec.depends :: CleanDep(d))
    && (forall e <- rec.manifest :: Faithful(e))
    && Trimmed(rec.hash)
    && (forall l <- rec.users :: CleanLine(l))
    && (forall l <- rec.flags :: CleanLine(l))
  }

  /** A list of lines written as `PutOrGone` does. */
  lemma ListSurvives(files: Files, name: string, ls: seq<string>)
    ensures LinesOf(PutOrGone(files, name, Join(ls, '\n')), name) == ls <==> forall l :: l in ls ==> CleanLine(l)
  {
    if ls != [] {
      JoinTerminates(ls);
      LinesSurvive(ls);
      if Join(ls, '\n') == [] {
        assert ls[0] in ls && ls[0] == [];
      }
    }
  }

  lemma HashSurvives(hash: string)
    ensures (if hash == [] then "" else Trim(hash + "\n")) == hash <==> Trimmed(hash)
  {
    TrimTrimmed(hash + "\n");
    if Trimmed(hash) {
      TrimLine(hash, '\n');
    }
  }

  /** What each file of a written record holds, whatever was there before. */
  lemma WrittenFiles(before: Files, rec: Record)
    requires WriteRecord(before, rec).Ok?
    ensures var files := WriteRecord(before, rec).value;
      && "version" in files && files["version"] == ShowVersion(rec.version) + "\n"
      && "depends" in files && files["depends"] == DepText(rec.depends)
      && "manifest" in files && files["manifest"] == FormatManifest(rec.manifest).value
      && (if rec.hash == [] then "hash" !in files else "hash" in files && files["hash"] == rec.hash + "\n")
  {
    Names();
  }

  lemma WrittenLists(before: Files, rec: Record)
    requires WriteRecord(before, rec).Ok?
    ensures var files := WriteRecord(before, rec).value;
      && (LinesOf(files, "users") == rec.users <==> forall l :: l in rec.users ==> CleanLine(l))
      && (LinesOf(files, "flags") == rec.flags <==> forall l :: l in rec.flags ==> CleanLine(l))
  {
    Names();
    var files := WriteRecord(before, rec).value;
    ListSurvives(before, "users", rec.users);
    ListSurvives(before, "flags", rec.flags);
    assert LinesOf(files, "users") == LinesOf(PutOrGone(before, "users", Join(rec.users, '\n')), "users");
    assert LinesOf(files, "flags") == LinesOf(PutOrGone(before, "flags", Join(rec.flags, '\n')), "flags");
  }

  /** The names are six different ones. */
  lemma Names()
    ensures "version" != "depends" && "version" != "hash" && "version" != "users" && "version" != "flags" && "version" != "manifest"
    ensures "depends" != "hash" && "depends" != "users" && "depends" != "flags" && "depends" != "manifest"
    ensures "hash" != "users" && "hash" != "flags" && "hash" != "manifest"
    ensures "users" != "flags" && "users" != "manifest" && "flags" != "manifest"
  {
    assert "version"[0] == 'v' && "depends"[0] == 'd' && "hash"[0] == 'h' && "users"[0] == 'u' && "flags"[0] == 'f' && "manifest"[0] == 'm';
  }

  /** A record comes back as it was written, whatever an earlier one left in its directory,
      exactly when the formats can hold it. */
  lemma RecordSurvives(before: Files, rec: Record)
    requires WriteRecord(before, rec).Ok? && Modes(rec.manifest) && rec.version.rev < U32_LIMIT
    ensures ReadRecord(WriteRecord(before, rec).value) == Ok(rec) <==> CleanRecord(rec)
  {
    WrittenFiles(before, rec);
    WrittenLists(before, rec);
    VersionSurvives(rec.version);
    DependsSurvive(rec.depends);
    ManifestSurvives(rec.manifest);
    HashSurvives(rec.hash);
  }

  /** A record's directory. */
  class Directory {
    var files: Files

    constructor ()
      ensures files == map[]
    {
      files := map[];
    }

    /** Written under another name first, so that a file is never half of either text. */
    method Put(name: string, body: string)
      modifies this
      ensures files == old(files)[name := body]
    {
      files := files[name := body];
    }

    method Rm(name: string)
      modifies this
      ensures files == old(files) - {name}
    {
      files := files - {name};
    }

    /** Nothing is written unless the manifest can be. */
    method Write(rec: Record) returns (r: Result<()>)
      modifies this
      ensures r.Ok? <==> WriteRecord(old(files), rec).Ok?
      ensures files == if r.Ok? then WriteRecord(old(files), rec).value else old(files)
      ensures r.Ok? && Modes(rec.manifest) && rec.version.rev < U32_LIMIT ==> (ReadRecord(files) == Ok(rec) <==> CleanRecord(rec))
    {
      ghost var before := files;
      var manifest := WriteManifest(rec.manifest);
      if manifest.Err? {
        return Err(manifest.fault);
      }
      var depends := "";
      assert rec.depends[0..] == rec.depends && depends + DepText(rec.depends) == DepText(rec.depends);
      for i := 0 to |rec.depends|
        invariant files == before && depends + DepText(rec.depends[i..]) == DepText(rec.depends)
      {
        assert rec.depends[i..][0] == rec.depends[i] && rec.depends[i..][1..] == rec.depends[i + 1..];
        DepTextStep(depends, rec.depends[i], rec.depends[i..]);
        depends := depends + (ShowDep(rec.depends[i]) + "\n");
      }
      assert depends + [] == depends;
      Put("version", ShowVersion(rec.version) + "\n");
      Put("depends", depends);
      PutOrRm("hash", rec.hash);
      PutOrRm("users", Join(rec.users, '\n'));
      PutOrRm("flags", Join(rec.flags, '\n'));
      Put("manifest", manifest.value);
      if Modes(rec.manifest) && rec.version.rev < U32_LIMIT {
        RecordSurvives(before, rec);
      }
      return Ok(());
    }

    method PutOrRm(name: string, v: string)
      modifies this
      ensures files == PutOrGone(old(files), name, v)
    {
      if v == "" {
        Rm(name);
      } else {
        Put(name, v + "\n");
      }
    }

    method Read() returns (r: Result<Record>)
      ensures r == ReadRecord(files)
    {
      if "version" !in files {
        return Err(Required("version"));
      }
      var version := ParseVersion(files["version"]);
      if version.Err? {
        return Err(version.fault);
      }
      var depends := ReadDepends(LinesOf(files, "depends"));
      if "manifest" !in files {
        return Err(Required("manifest"));
      }
      var manifest := ParseManifest(files["manifest"]);
      if manifest.Err? {
        return Err(manifest.fault);
      }
      var hash := if "hash" in files then Trim(files["hash"]) else "";
      return Ok(Record(version.value, depends, manifest.value, hash, LinesOf(files, "users"), LinesOf(files, "flags")));
    }
  }

  lemma DepTextStep(so: string, d: Dep, ds: seq<Dep>)
    requires ds != [] && ds[0] == d
    ensures so + DepText(ds) == (so + (ShowDep(d) + "\n")) + DepText(ds[1..])
  {
    var ls := DepLines(ds);
    assert ls[0] == ShowDep(d) && ls[1..] == DepLines(ds[1..]);
    assert DepText(ds) == ShowDep(d) + "\n" + DepText(ds[1..]);
  }
}
