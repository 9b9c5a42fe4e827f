/** The order texts and lists of texts sort in, and a stable sort. */
module Order {

  /** A strict total order. */
  ghost predicate Total<T(!new)>(lt: (T, T) -> bool) {
    && (forall a, b :: lt(a, b) || a == b || lt(b, a))
    && (forall a, b :: lt(a, b) ==> !lt(b, a))
    && (forall a, b, c :: lt(a, b) && lt(b, c) ==> lt(a, c))
  }

  /** Element by element, a prefix first. */
  predicate Lex<T(==)>(lt: (T, T) -> bool, a: seq<T>, b: seq<T>)
    decreases |a|
  {
    b != [] && (a == [] || lt(a[0], b[0]) || (a[0] == b[0] && Lex(lt, a[1..], b[1..])))
  }

  lemma {:induction false} LexTotal<T(!new)>(lt: (T, T) -> bool, a: seq<T>, b: seq<T>)
    requires Total(lt)
    ensures Lex(lt, a, b) || a == b || Lex(lt, b, a)
    ensures Lex(lt, a, b) ==> a != b && !Lex(lt, b, a)
    decreases |a|
  {
    if a != [] && b != [] {
      assert !lt(a[0], a[0]);
      if a[0] == b[0] {
        LexTotal(lt, a[1..], b[1..]);
        assert a == [a[0]] + a[1..] && b == [b[0]] + b[1..];
      }
    }
  }

  lemma {:induction false} LexTransitive<T(!new)>(lt: (T, T) -> bool, a: seq<T>, b: seq<T>, c: seq<T>)
    requires Total(lt) && Lex(lt, a, b) && Lex(lt, b, c)
    ensures Lex(lt, a, c)
    decreases |a|
  {
    if a != [] && a[0] == b[0] == c[0] {
      LexTransitive(lt, a[1..], b[1..], c[1..]);
    }
  }

  /** Not being behind can be chained. */
  ghost predicate Weak<T(!new)>(before: (T, T) -> bool) {
    && (forall a, b :: before(a, b) ==> !before(b, a))
    && (forall a, b, c :: !before(b, a) && !before(c, b) ==> !before(c, a))
  }

  ghost predicate Ordered<T>(before: (T, T) -> bool, s: seq<T>) {
    forall i, j :: 0 <= i < j < |s| ==> !before(s[j], s[i])
  }

  function Insert<T>(before: (T, T) -> bool, x: T, s: seq<T>): seq<T> {
    if s == [] || !before(s[0], x) then [x] + s else [s[0]] + Insert(before, x, s[1..])
  }

  /** What is equal stays in the order it came. */
  function Sort<T>(before: (T, T) -> bool, s: seq<T>): seq<T> {
    if s == [] then [] else Insert(before, s[0], Sort(before, s[1..]))
  }

  lemma {:induction false} InsertHolds<T(!new)>(before: (T, T) -> bool, x: T, s: seq<T>)
    requires Weak(before) && Ordered(before, s)
    ensures Ordered(before, Insert(before, x, s)) && multiset(Insert(before, x, s)) == multiset(s) + multiset{x}
  {
    if s == [] {
    } else if !before(s[0], x) {
      forall i | 0 <= i < |s| ensures !before(s[i], x) {
        assert i > 0 ==> !before(s[i], s[0]);
      }
    } else {
      InsertHolds(before, x, s[1..]);
      var rest := Insert(before, x, s[1..]);
      assert s == [s[0]] + s[1..];
      forall y | y in rest ensures !before(y, s[0]) {
        assert y in multiset(rest);
        if y != x {
          var i :| 0 <= i < |s[1..]| && s[1..][i] == y;
          assert s[i + 1] == y;
        }
      }
    }
  }

  lemma {:induction false} SortHolds<T(!new)>(before: (T, T) -> bool, s: seq<T>)
    requires Weak(before)
    ensures Ordered(before, Sort(before, s)) && multiset(Sort(before, s)) == multiset(s)
  {
    if s != [] {
      SortHolds(before, s[1..]);
      InsertHolds(before, s[0], Sort(before, s[1..]));
      assert s == [s[0]] + s[1..];
    }
  }
}
