/** Python's `sorted`: a stable sort driven by a "less than" relation, and the
    lexicographic comparisons Python applies to strings and to paths. */
module Sorting {

  /** `lt` is a strict order: irreflexive and transitive (so also asymmetric). */
  ghost predicate StrictOrder<T(!new)>(lt: (T, T) -> bool) {
    && (forall a :: !lt(a, a))
    && (forall a, b, c :: lt(a, b) && lt(b, c) ==> lt(a, c))
  }

  /** No element is below an element in front of it. */
  ghost predicate SortedBy<T(!new)>(s: seq<T>, lt: (T, T) -> bool) {
    forall i, j :: 0 <= i < j < |s| ==> !lt(s[j], s[i])
  }

  /** Inserts `x` after every element it is not below: a later element goes
      after the equal ones already placed, which keeps the sort stable. */
  function InsertBy<T(!new)>(x: T, s: seq<T>, lt: (T, T) -> bool): (r: seq<T>)
    ensures |r| == |s| + 1
    ensures multiset(r) == multiset(s) + multiset{x}
    decreases |s|
  {
    if |s| == 0 then [x]
    else if lt(x, s[0]) then [x] + s
    else
      var t := InsertBy(x, s[1..], lt);
      assert s == [s[0]] + s[1..];
      [s[0]] + t
  }

  /** `sorted(s)` for the comparison `lt`. */
  function SortBy<T(!new)>(s: seq<T>, lt: (T, T) -> bool): (r: seq<T>)
    ensures multiset(r) == multiset(s)
    decreases |s|
  {
    if |s| == 0 then []
    else
      assert s == s[..|s| - 1] + [s[|s| - 1]];
      InsertBy(s[|s| - 1], SortBy(s[..|s| - 1], lt), lt)
  }

  lemma {:induction false} InsertBySorted<T(!new)>(x: T, s: seq<T>, lt: (T, T) -> bool)
    requires StrictOrder(lt) && SortedBy(s, lt)
    ensures SortedBy(InsertBy(x, s, lt), lt)
    decreases |s|
  {
    if |s| == 0 {
    } else if lt(x, s[0]) {
      var r := [x] + s;
      forall i, j | 0 <= i < j < |r| ensures !lt(r[j], r[i]) {
        if i == 0 {
          assert r[j] == s[j - 1];
          if lt(s[j - 1], x) {
            assert false;
          }
        } else {
          assert r[i] == s[i - 1] && r[j] == s[j - 1];
        }
      }
    } else {
      var t := InsertBy(x, s[1..], lt);
      InsertBySorted(x, s[1..], lt);
      var r := [s[0]] + t;
      forall i, j | 0 <= i < j < |r| ensures !lt(r[j], r[i]) {
        if i == 0 {
          var e := r[j];
          assert e in multiset(t);
          assert e in multiset(s[1..]) || e == x;
          if e != x {
            var k :| 0 <= k < |s[1..]| && s[1..][k] == e;
            assert s[k + 1] == e;
          }
        } else {
          assert r[i] == t[i - 1] && r[j] == t[j - 1];
        }
      }
    }
  }

  /** `sorted` returns its input rearranged into order. */
  lemma {:induction false} SortBySorted<T(!new)>(s: seq<T>, lt: (T, T) -> bool)
    requires StrictOrder(lt)
    ensures SortedBy(SortBy(s, lt), lt)
    ensures multiset(SortBy(s, lt)) == multiset(s)
    decreases |s|
  {
    if |s| > 0 {
      SortBySorted(s[..|s| - 1], lt);
      InsertBySorted(s[|s| - 1], SortBy(s[..|s| - 1], lt), lt);
    }
  }

  /** `reverse=True`: every comparison is made the other way round. */
  function Flip<T(!new)>(lt: (T, T) -> bool): (T, T) -> bool {
    (a, b) => lt(b, a)
  }

  lemma FlipStrict<T(!new)>(lt: (T, T) -> bool)
    requires StrictOrder(lt)
    ensures StrictOrder(Flip(lt))
  {
    var f := Flip(lt);
    forall a, b, c | f(a, b) && f(b, c) ensures f(a, c) {
      assert lt(b, a) && lt(c, b);
    }
  }

  /** Sorted for the flipped comparison means no element is above an element
      in front of it: the order runs downwards. */
  lemma FlipSorted<T(!new)>(s: seq<T>, lt: (T, T) -> bool)
    requires SortedBy(s, Flip(lt))
    ensures forall i, j :: 0 <= i < j < |s| ==> !lt(s[i], s[j])
  {
    forall i, j | 0 <= i < j < |s| ensures !lt(s[i], s[j]) {
      assert !Flip(lt)(s[j], s[i]);
    }
  }

  /** `key=...`: compare by a number attached to each element. */
  function KeyLess<T(!new)>(key: T -> real): (T, T) -> bool {
    (a, b) => key(a) < key(b)
  }

  lemma KeyLessStrict<T(!new)>(key: T -> real)
    ensures StrictOrder(KeyLess(key))
  {
  }

  /** Python's comparison of two sequences: at the first place where they
      differ the elements decide, and a proper prefix comes first. */
  function LexLess<T(==,!new)>(a: seq<T>, b: seq<T>, lt: (T, T) -> bool): bool
    decreases |a|
  {
    if |a| == 0 then |b| > 0
    else if |b| == 0 then false
    else if a[0] == b[0] then LexLess(a[1..], b[1..], lt)
    else lt(a[0], b[0])
  }

  lemma {:induction false} LexIrreflexive<T(!new)>(a: seq<T>, lt: (T, T) -> bool)
    ensures !LexLess(a, a, lt)
    decreases |a|
  {
    if |a| > 0 {
      LexIrreflexive(a[1..], lt);
    }
  }

  lemma {:induction false} LexTransitive<T(!new)>(a: seq<T>, b: seq<T>, c: seq<T>, lt: (T, T) -> bool)
    requires StrictOrder(lt)
    requires LexLess(a, b, lt) && LexLess(b, c, lt)
    ensures LexLess(a, c, lt)
    decreases |a|
  {
    if |a| == 0 {
    } else if a[0] == b[0] && b[0] == c[0] {
      LexTransitive(a[1..], b[1..], c[1..], lt);
    } else if a[0] == c[0] {
      assert false;
    }
  }

  /** The lexicographic order of a strict order is a strict order. */
  function Lex<T(==,!new)>(lt: (T, T) -> bool): (seq<T>, seq<T>) -> bool {
    (a, b) => LexLess(a, b, lt)
  }

  lemma LexStrict<T(!new)>(lt: (T, T) -> bool)
    requires StrictOrder(lt)
    ensures StrictOrder(Lex(lt))
  {
    forall a | true ensures !Lex(lt)(a, a) {
      LexIrreflexive(a, lt);
    }
    forall a, b, c | Lex(lt)(a, b) && Lex(lt)(b, c) ensures Lex(lt)(a, c) {
      LexTransitive(a, b, c, lt);
    }
  }

  /** `str < str`: by code point. */
  function StrLess(): (string, string) -> bool {
    Lex((x: char, y: char) => x < y)
  }

  /** A path as the list of its parts, the way a POSIX `PurePath` compares. */
  type Path = seq<string>

  /** `Path < Path`: the lists of parts, compared as strings. */
  function PathLess(): (Path, Path) -> bool {
    Lex(StrLess())
  }

  lemma PathLessStrict()
    ensures StrictOrder(StrLess()) && StrictOrder(PathLess())
  {
    LexStrict((x: char, y: char) => x < y);
    LexStrict(StrLess());
  }
}
