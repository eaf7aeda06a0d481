/** Strict total orders, the lexicographic order Python uses for strings and
    tuples, and sorting: what makes `sorted(...)` a canonical form. */
module Order {

  ghost predicate StrictTotal<T(!new)>(less: (T, T) -> bool) {
    && (forall x :: !less(x, x))
    && (forall x, y, z :: less(x, y) && less(y, z) ==> less(x, z))
    && (forall x, y :: x != y ==> less(x, y) || less(y, x))
  }

  /** Nondecreasing: no later element is below an earlier one. */
  ghost predicate Sorted<T>(s: seq<T>, less: (T, T) -> bool) {
    forall i, j :: 0 <= i < j < |s| ==> !less(s[j], s[i])
  }

  ghost predicate Distinct<T>(s: seq<T>) {
    forall i, j :: 0 <= i < j < |s| ==> s[i] != s[j]
  }

  // ---- lexicographic order on sequences

  predicate LexLess<T(==)>(a: seq<T>, b: seq<T>, less: (T, T) -> bool) {
    if b == [] then false
    else if a == [] then true
    else less(a[0], b[0]) || (a[0] == b[0] && LexLess(a[1..], b[1..], less))
  }

  lemma {:induction false} LexIrreflexive<T(!new)>(a: seq<T>, less: (T, T) -> bool)
    requires StrictTotal(less)
    ensures !LexLess(a, a, less)
  {
    if a != [] {
      LexIrreflexive(a[1..], less);
    }
  }

  lemma {:induction false} LexTransitive<T(!new)>(a: seq<T>, b: seq<T>, c: seq<T>, less: (T, T) -> bool)
    requires StrictTotal(less)
    requires LexLess(a, b, less) && LexLess(b, c, less)
    ensures LexLess(a, c, less)
  {
    if a != [] && a[0] == b[0] && b[0] == c[0] {
      LexTransitive(a[1..], b[1..], c[1..], less);
    }
  }

  lemma {:induction false} LexTotal<T(!new)>(a: seq<T>, b: seq<T>, less: (T, T) -> bool)
    requires StrictTotal(less)
    requires a != b
    ensures LexLess(a, b, less) || LexLess(b, a, less)
  {
    if a != [] && b != [] && a[0] == b[0] {
      assert a == [a[0]] + a[1..] && b == [b[0]] + b[1..];
      LexTotal(a[1..], b[1..], less);
    }
  }

  predicate CharLess(a: char, b: char) {
    a < b
  }

  /** Python's `<` on `str`: lexicographic by code point. */
  predicate StringLess(a: string, b: string) {
    LexLess(a, b, CharLess)
  }

  lemma StringLessIsStrictTotal()
    ensures StrictTotal(StringLess)
  {
    forall a: string ensures !StringLess(a, a) { LexIrreflexive(a, CharLess); }
    forall a: string, b: string, c: string | StringLess(a, b) && StringLess(b, c) ensures StringLess(a, c) {
      LexTransitive(a, b, c, CharLess);
    }
    forall a: string, b: string | a != b ensures StringLess(a, b) || StringLess(b, a) {
      LexTotal(a, b, CharLess);
    }
  }

  /** At `k` the two first differ, and there `a` ends or has the smaller character. */
  predicate FallsBelowAt(a: string, b: string, k: nat) {
    k <= |a| && k < |b| && a[..k] == b[..k] && (k == |a| || a[k] < b[k])
  }

  lemma {:induction false} StringLessIff(a: string, b: string)
    ensures StringLess(a, b) <==> exists k :: FallsBelowAt(a, b, k)
  {
    if a == [] || b == [] || a[0] != b[0] {
      assert StringLess(a, b) ==> FallsBelowAt(a, b, 0);
    } else {
      StringLessIff(a[1..], b[1..]);
      assert a == [a[0]] + a[1..] && b == [b[0]] + b[1..];
      if k: nat :| FallsBelowAt(a[1..], b[1..], k) {
        assert a[..k + 1] == [a[0]] + a[1..][..k] && b[..k + 1] == [b[0]] + b[1..][..k];
        assert FallsBelowAt(a, b, k + 1);
      }
      if k: nat :| FallsBelowAt(a, b, k) {
        assert k > 0;
        assert a[1..][..k - 1] == a[..k][1..] && b[1..][..k - 1] == b[..k][1..];
        assert FallsBelowAt(a[1..], b[1..], k - 1);
      }
    }
  }

  /** Python's `<` on tuples of strings of equal length. */
  predicate TupleLess(a: seq<string>, b: seq<string>) {
    LexLess(a, b, StringLess)
  }

  lemma TupleLessIsStrictTotal()
    ensures StrictTotal(TupleLess)
  {
    StringLessIsStrictTotal();
    forall a: seq<string> ensures !TupleLess(a, a) { LexIrreflexive(a, StringLess); }
    forall a: seq<string>, b: seq<string>, c: seq<string> | TupleLess(a, b) && TupleLess(b, c)
      ensures TupleLess(a, c)
    {
      LexTransitive(a, b, c, StringLess);
    }
    forall a: seq<string>, b: seq<string> | a != b ensures TupleLess(a, b) || TupleLess(b, a) {
      LexTotal(a, b, StringLess);
    }
  }

  // ---- sorting

  /** Insert after every element that is not above `x` (a stable insertion). */
  function Insert<T>(x: T, s: seq<T>, less: (T, T) -> bool): seq<T> {
    if s == [] then [x]
    else if less(x, s[0]) then [x] + s
    else [s[0]] + Insert(x, s[1..], less)
  }

  lemma {:induction false} InsertKeeps<T(!new)>(x: T, s: seq<T>, less: (T, T) -> bool)
    ensures multiset(Insert(x, s, less)) == multiset(s) + multiset{x}
  {
    if s != [] {
      assert s == [s[0]] + s[1..];
      if !less(x, s[0]) {
        InsertKeeps(x, s[1..], less);
      }
    }
  }

  lemma {:induction false} InsertCorrect<T(!new)>(x: T, s: seq<T>, less: (T, T) -> bool)
    requires StrictTotal(less) && Sorted(s, less)
    ensures Sorted(Insert(x, s, less), less)
    ensures multiset(Insert(x, s, less)) == multiset(s) + multiset{x}
  {
    InsertKeeps(x, s, less);
    if s != [] {
      if less(x, s[0]) {
        forall j | 0 <= j < |s| ensures !less(s[j], x) {
          assert j == 0 || !less(s[j], s[0]);
        }
      } else {
        InsertCorrect(x, s[1..], less);
        AboveHead(x, s, less);
      }
    }
  }

  lemma AboveHead<T(!new)>(x: T, s: seq<T>, less: (T, T) -> bool)
    requires s != [] && Sorted(s, less) && !less(x, s[0])
    ensures forall j :: 0 <= j < |Insert(x, s[1..], less)| ==> !less(Insert(x, s[1..], less)[j], s[0])
  {
    var rest := Insert(x, s[1..], less);
    InsertKeeps(x, s[1..], less);
    forall j | 0 <= j < |rest| ensures !less(rest[j], s[0]) {
      assert rest[j] in multiset(rest);
      assert rest[j] == x || rest[j] in multiset(s[1..]);
    }
  }

  /** Python's `sorted`. */
  function Sort<T>(s: seq<T>, less: (T, T) -> bool): seq<T> {
    if s == [] then [] else Insert(s[|s| - 1], Sort(s[..|s| - 1], less), less)
  }

  lemma {:induction false} SortCorrect<T(!new)>(s: seq<T>, less: (T, T) -> bool)
    requires StrictTotal(less)
    ensures Sorted(Sort(s, less), less)
    ensures multiset(Sort(s, less)) == multiset(s)
  {
    if s != [] {
      SortCorrect(s[..|s| - 1], less);
      InsertCorrect(s[|s| - 1], Sort(s[..|s| - 1], less), less);
      assert s == s[..|s| - 1] + [s[|s| - 1]];
    }
  }

  /** A sorted arrangement is determined by what it arranges. */
  lemma {:induction false} SortedUnique<T(!new)>(s: seq<T>, t: seq<T>, less: (T, T) -> bool)
    requires StrictTotal(less) && Sorted(s, less) && Sorted(t, less)
    requires multiset(s) == multiset(t)
    ensures s == t
  {
    assert |s| == |multiset(s)| == |multiset(t)| == |t|;
    if s != [] {
      SameHead(s, t, less);
      TailMultiset(s);
      TailMultiset(t);
      SortedUnique(s[1..], t[1..], less);
    }
  }

  lemma SameHead<T(!new)>(s: seq<T>, t: seq<T>, less: (T, T) -> bool)
    requires StrictTotal(less) && Sorted(s, less) && Sorted(t, less)
    requires multiset(s) == multiset(t) && s != [] && t != []
    ensures s[0] == t[0]
  {
    assert s[0] in multiset(t) && t[0] in multiset(s);
    var i :| 0 <= i < |t| && t[i] == s[0];
    var j :| 0 <= j < |s| && s[j] == t[0];
    assert i == 0 || !less(t[i], t[0]);
    assert j == 0 || !less(s[j], s[0]);
  }

  lemma TailMultiset<T>(s: seq<T>)
    requires s != []
    ensures s == [s[0]] + s[1..]
    ensures multiset(s[1..]) == multiset(s) - multiset{s[0]}
  {
    assert s == [s[0]] + s[1..];
  }

  lemma {:induction false} DistinctMultiset<T>(s: seq<T>)
    requires Distinct(s)
    ensures forall x :: multiset(s)[x] == if x in s then 1 else 0
  {
    if s != [] {
      var front, last := s[..|s| - 1], s[|s| - 1];
      assert s == front + [last];
      DistinctMultiset(front);
      assert last !in front;
    }
  }

  /** Sorting duplicate-free lists of the same elements gives the same list. */
  lemma SortSameElements<T(!new)>(s: seq<T>, t: seq<T>, less: (T, T) -> bool)
    requires StrictTotal(less) && Distinct(s) && Distinct(t)
    requires forall x :: x in s <==> x in t
    ensures Sort(s, less) == Sort(t, less)
  {
    DistinctMultiset(s);
    DistinctMultiset(t);
    assert multiset(s) == multiset(t);
    SortCorrect(s, less);
    SortCorrect(t, less);
    SortedUnique(Sort(s, less), Sort(t, less), less);
  }

  /** `sorted(a_set)`: the elements of a set in increasing order. */
  ghost function SortSet<T(!new)>(s: set<T>, less: (T, T) -> bool): seq<T> {
    if s == {} then []
    else
      var x :| x in s;
      Insert(x, SortSet(s - {x}, less), less)
  }

  lemma {:induction false} SortSetCorrect<T(!new)>(s: set<T>, less: (T, T) -> bool)
    requires StrictTotal(less)
    ensures Sorted(SortSet(s, less), less)
    ensures multiset(SortSet(s, less)) == multiset(s)
    ensures forall x :: x in SortSet(s, less) <==> x in s
    decreases |s|
  {
    if s != {} {
      var x :| x in s && SortSet(s, less) == Insert(x, SortSet(s - {x}, less), less);
      SortSetCorrect(s - {x}, less);
      InsertCorrect(x, SortSet(s - {x}, less), less);
      assert multiset(s) == multiset(s - {x}) + multiset{x};
    }
    forall x ensures x in SortSet(s, less) <==> x in s {
      assert x in SortSet(s, less) <==> x in multiset(SortSet(s, less));
    }
  }
}
