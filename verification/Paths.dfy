/** Paths as the archive reader and the installer see them: '/'-separated text on the
    outside, a list of components on the inside. */
module Paths {

  type Path = seq<string>

  datatype Option<+T> = None | Some(value: T)

  /** `s.split(sep)`: always at least one field, empty fields kept. */
  function Split(s: string, sep: char): (fields: seq<string>)
    ensures |fields| >= 1
  {
    if s == [] then [[]]
    else
      var rest := Split(s[1..], sep);
      if s[0] == sep then [[]] + rest else [[s[0]] + rest[0]] + rest[1..]
  }

  /** `fields.join(sep)` */
  function Join(fields: seq<string>, sep: char): string {
    if fields == [] then []
    else if |fields| == 1 then fields[0]
    else fields[0] + [sep] + Join(fields[1..], sep)
  }

  /** A component a resolved path may hold: it names something inside its directory. */
  predicate Proper(c: string) {
    c != "" && c != "." && c != ".." && '/' !in c
  }

  predicate ProperPath(p: Path) {
    forall i :: 0 <= i < |p| ==> Proper(p[i])
  }

  /** Splitting at a separator distributes over concatenation. */
  lemma {:induction false} SplitAppend(s: string, t: string, sep: char)
    ensures Split(s + [sep] + t, sep) == Split(s, sep) + Split(t, sep)
  {
    if s == [] {
      assert s + [sep] + t == [sep] + t;
      assert ([sep] + t)[1..] == t;
    } else {
      var u := s + [sep] + t;
      assert u[0] == s[0] && u[1..] == s[1..] + [sep] + t;
      SplitAppend(s[1..], t, sep);
      var a, b := Split(s[1..], sep), Split(t, sep);
      assert Split(u[1..], sep) == a + b;
      assert [[]] + (a + b) == ([[]] + a) + b;
      assert [[s[0]] + (a + b)[0]] + (a + b)[1..] == ([[s[0]] + a[0]] + a[1..]) + b;
    }
  }

  lemma {:induction false} SplitClean(s: string, sep: char)
    requires sep !in s
    ensures Split(s, sep) == [s]
  {
    if s != [] {
      SplitClean(s[1..], sep);
      assert [s[0]] + s[1..] == s;
    }
  }

  /** Joining then splitting gives the fields back, so a list of separator-free fields and
      its text say the same thing. */
  lemma {:induction false} SplitJoin(fields: seq<string>, sep: char)
    requires fields != []
    requires forall i :: 0 <= i < |fields| ==> sep !in fields[i]
    ensures Split(Join(fields, sep), sep) == fields
  {
    SplitClean(fields[0], sep);
    if |fields| > 1 {
      SplitJoin(fields[1..], sep);
      SplitAppend(fields[0], Join(fields[1..], sep), sep);
    }
  }

  lemma {:induction false} JoinSplit(s: string, sep: char)
    ensures Join(Split(s, sep), sep) == s
  {
    if s != [] {
      JoinSplit(s[1..], sep);
      var rest := Split(s[1..], sep);
      var all := Split(s, sep);
      if s[0] == sep {
        assert all[1..] == rest;
      } else {
        assert all[1..] == rest[1..];
      }
    }
  }

  /** No field of a split holds the separator. */
  lemma {:induction false} SplitFields(s: string, sep: char)
    ensures forall i :: 0 <= i < |Split(s, sep)| ==> sep !in Split(s, sep)[i]
  {
    if s != [] {
      SplitFields(s[1..], sep);
    }
  }
}
