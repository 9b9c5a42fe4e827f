/** What the words behind a dependency's name mean: `depends_from` in pkg.rs. */
module Suffixed {
  import opened Paths
  import opened Records
  import opened Text
  import opened Formats
  import opened Database

  /** Both of these words say that a dependency is for the build only. */
  predicate ForBuild(w: string) {
    w in {"make", "build"}
  }

  /** The last word that is so, if any is. */
  ghost predicate LastSo(ws: seq<string>, so: string -> bool, last: Option<string>) {
    match last
    case None => forall w :: w in ws ==> !so(w)
    case Some(w) => exists k :: 0 <= k < |ws| && ws[k] == w && so(w) && forall j :: k < j < |ws| ==> !so(ws[j])
  }

  predicate ForTarget(w: string) {
    !ForBuild(w)
  }

  /** The first word is the name. The last of the words for the build says whose copy is meant,
      `make` the host's and `build` the target's; the last of the other words is the suffix a
      target has to end in. */
  ghost predicate Says(ws: seq<string>, d: Dep)
    requires ws != []
  {
    && d.name == ws[0]
    && (d.make <==> "make" in ws[1..] || "build" in ws[1..])
    && (d.host <==> LastSo(ws[1..], ForBuild, Some("make")))
    && LastSo(ws[1..], ForTarget, d.only)
  }

  lemma LastStep(w: string, ws: seq<string>, so: string -> bool, last: Option<string>, all: seq<string>)
    requires all == [w] + ws
    requires LastSo(ws, so, last)
    ensures LastSo(all, so, if last == None && so(w) then Some(w) else last)
  {
    if last == None {
      assert so(w) ==> all[0] == w;
      assert forall j :: 0 < j < |all| ==> all[j] == ws[j - 1] && ws[j - 1] in ws;
    } else {
      var k :| 0 <= k < |ws| && ws[k] == last.value && so(last.value) && forall j :: k < j < |ws| ==> !so(ws[j]);
      assert all[k + 1] == last.value;
      assert forall j :: k + 1 < j < |all| ==> all[j] == ws[j - 1];
    }
  }

  lemma LastOne(ws: seq<string>, so: string -> bool, a: Option<string>, b: Option<string>)
    requires LastSo(ws, so, a) && LastSo(ws, so, b)
    ensures a == b
  {
  }

  /** What a dependency becomes by more words: the last of each sort decides, and where there is
      none it stays as it was. */
  lemma {:induction false} WordsTaken(d: Dep, ws: seq<string>) returns (kind: Option<string>, only: Option<string>)
    ensures LastSo(ws, ForBuild, kind) && LastSo(ws, ForTarget, only)
    ensures TakeWords(d, ws) == Dep(d.name, d.make || kind.Some?, if kind.Some? then kind == Some("make") else d.host, if only.Some? then only else d.only)
    decreases |ws|
  {
    if ws == [] {
      kind, only := None, None;
    } else {
      var w := ws[0];
      kind, only := WordsTaken(TakeWord(d, w), ws[1..]);
      LastStep(w, ws[1..], ForBuild, kind, ws);
      LastStep(w, ws[1..], ForTarget, only, ws);
      kind := if kind == None && ForBuild(w) then Some(w) else kind;
      only := if only == None && ForTarget(w) then Some(w) else only;
    }
  }

  lemma WordsMean(ws: seq<string>)
    requires ws != []
    ensures Says(ws, DepFrom(ws))
  {
    var rest := ws[1..];
    var kind, only := WordsTaken(Dep(ws[0], false, false, None), rest);
    if kind.Some? {
      assert kind.value in rest;
    }
    if LastSo(rest, ForBuild, Some("make")) {
      LastOne(rest, ForBuild, kind, Some("make"));
    }
  }

  /** Line by line: a line without words gives no dependency, and any other the one its words
      say, in the lines' order. */
  ghost predicate Reads(ls: seq<string>, ds: seq<Dep>)
    decreases |ls|
  {
    if ls == [] then ds == []
    else if Words(ls[0]) == [] then Reads(ls[1..], ds)
    else ds != [] && Says(Words(ls[0]), ds[0]) && Reads(ls[1..], ds[1..])
  }

  lemma {:induction false} DependsMean(ls: seq<string>)
    ensures Reads(ls, DependsFrom(ls))
    decreases |ls|
  {
    if ls != [] {
      DependsMean(ls[1..]);
      var ws, rest := Words(ls[0]), DependsFrom(ls[1..]);
      if ws == [] {
        assert DependsFrom(ls) == rest;
      } else {
        WordsMean(ws);
        assert DependsFrom(ls)[1..] == rest;
      }
    }
  }

  /** The two words by themselves. */
  lemma Suffix(name: string)
    ensures DepFrom([name, "make"]) == Dep(name, true, true, None)
    ensures DepFrom([name, "build"]) == Dep(name, true, false, None)
    ensures DepFrom([name]) == Dep(name, false, false, None)
  {
    assert [name, "make"][1..] == ["make"] && ["make"][1..] == [];
    assert [name, "build"][1..] == ["build"] && ["build"][1..] == [];
    assert [name][1..] == [];
    assert "build" != "make";
  }
}
