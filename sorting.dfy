/** Python's built-in stable sort, as the pipeline uses it:
    sorted(xs, key=key, reverse=True) over a numeric key (SortDesc), the
    ascending form through the negated key (SortAsc), and sorted(strings,
    reverse=True) under Python's code-point order (SortStringsDesc). */
module Sorting {

  // ---------------------------------------------------------------------
  // Stable sort by a numeric key
  // ---------------------------------------------------------------------

  /** Inserts x in front of the first element whose key is not larger. */
  function Insert<T>(x: T, s: seq<T>, key: T -> real): (r: seq<T>)
    ensures multiset(r) == multiset(s) + multiset{x}
    ensures |r| == |s| + 1
    decreases |s|
  {
    if s == [] || key(s[0]) <= key(x) then [x] + s
    else
      assert s == [s[0]] + s[1..];
      [s[0]] + Insert(x, s[1..], key)
  }

  /** sorted(xs, key=key, reverse=True). */
  function SortDesc<T>(xs: seq<T>, key: T -> real): (r: seq<T>)
    ensures multiset(r) == multiset(xs)
    ensures |r| == |xs|
    decreases |xs|
  {
    if xs == [] then []
    else
      assert xs == [xs[0]] + xs[1..];
      Insert(xs[0], SortDesc(xs[1..], key), key)
  }

  /** sorted(xs, key=key): ascending, equal keys in input order. */
  function SortAsc<T>(xs: seq<T>, key: T -> real): seq<T> {
    SortDesc(xs, x => -key(x))
  }

  ghost predicate Descending<T>(s: seq<T>, key: T -> real) {
    forall i, j :: 0 <= i < j < |s| ==> key(s[i]) >= key(s[j])
  }

  ghost predicate Ascending<T>(s: seq<T>, key: T -> real) {
    forall i, j :: 0 <= i < j < |s| ==> key(s[i]) <= key(s[j])
  }

  /** The elements whose key equals k, in their order in s. */
  function WithKey<T>(s: seq<T>, key: T -> real, k: real): (r: seq<T>)
    ensures |r| <= |s|
    decreases |s|
  {
    if s == [] then []
    else (if key(s[0]) == k then [s[0]] else []) + WithKey(s[1..], key, k)
  }

  /** Stable: every group of equal keys keeps its relative order. */
  ghost predicate StableFor<T>(r: seq<T>, xs: seq<T>, key: T -> real) {
    forall k :: WithKey(r, key, k) == WithKey(xs, key, k)
  }

  lemma {:induction false} InsertDescending<T>(x: T, s: seq<T>, key: T -> real)
    requires Descending(s, key)
    ensures Descending(Insert(x, s, key), key)
    decreases |s|
  {
    if s == [] || key(s[0]) <= key(x) {
    } else {
      InsertDescending(x, s[1..], key);
      InsertBelow(x, s[1..], key, key(s[0]));
      var t := Insert(x, s[1..], key);
      var r := [s[0]] + t;
      forall i, j | 0 <= i < j < |r| ensures key(r[i]) >= key(r[j]) {
        if i > 0 {
          assert r[i] == t[i - 1];
        }
        assert r[j] == t[j - 1];
      }
    }
  }

  /** Inserting under a bound every element respects keeps the bound. */
  lemma {:induction false} InsertBelow<T>(x: T, s: seq<T>, key: T -> real, b: real)
    requires key(x) <= b
    requires forall i :: 0 <= i < |s| ==> key(s[i]) <= b
    ensures forall i :: 0 <= i < |Insert(x, s, key)| ==> key(Insert(x, s, key)[i]) <= b
    decreases |s|
  {
    if s != [] && key(x) < key(s[0]) {
      InsertBelow(x, s[1..], key, b);
      var t := Insert(x, s[1..], key);
      forall i | 0 < i < |t| + 1 ensures key(([s[0]] + t)[i]) <= b {
        assert ([s[0]] + t)[i] == t[i - 1];
      }
    }
  }

  lemma {:induction false} InsertWithKey<T>(x: T, s: seq<T>, key: T -> real, k: real)
    requires Descending(s, key)
    ensures WithKey(Insert(x, s, key), key, k) ==
      (if key(x) == k then [x] else []) + WithKey(s, key, k)
    decreases |s|
  {
    if s == [] || key(s[0]) <= key(x) {
    } else {
      InsertWithKey(x, s[1..], key, k);
      var r := Insert(x, s, key);
      assert r == [s[0]] + Insert(x, s[1..], key);
      assert r[1..] == Insert(x, s[1..], key);
      assert WithKey(r, key, k) ==
        (if key(s[0]) == k then [s[0]] else []) + WithKey(r[1..], key, k);
    }
  }

  /** SortDesc orders by non-increasing key. */
  lemma {:induction false} SortDescDescending<T>(xs: seq<T>, key: T -> real)
    ensures Descending(SortDesc(xs, key), key)
    decreases |xs|
  {
    if xs != [] {
      SortDescDescending(xs[1..], key);
      InsertDescending(xs[0], SortDesc(xs[1..], key), key);
    }
  }

  /** SortDesc keeps elements with equal keys in their input order. */
  lemma {:induction false} SortDescStable<T>(xs: seq<T>, key: T -> real)
    ensures StableFor(SortDesc(xs, key), xs, key)
    decreases |xs|
  {
    if xs != [] {
      SortDescStable(xs[1..], key);
      SortDescDescending(xs[1..], key);
      forall k ensures WithKey(SortDesc(xs, key), key, k) == WithKey(xs, key, k) {
        InsertWithKey(xs[0], SortDesc(xs[1..], key), key, k);
      }
    }
  }

  /** SortDesc is Python's sorted(..., reverse=True): a permutation, in
      non-increasing key order, stable on ties. */
  lemma SortDescSpec<T>(xs: seq<T>, key: T -> real)
    ensures multiset(SortDesc(xs, key)) == multiset(xs)
    ensures Descending(SortDesc(xs, key), key)
    ensures StableFor(SortDesc(xs, key), xs, key)
  {
    SortDescDescending(xs, key);
    SortDescStable(xs, key);
  }

  /** SortAsc is Python's sorted(...): a permutation, in non-decreasing key
      order, stable on ties. */
  lemma SortAscSpec<T>(xs: seq<T>, key: T -> real)
    ensures multiset(SortAsc(xs, key)) == multiset(xs)
    ensures Ascending(SortAsc(xs, key), key)
    ensures StableFor(SortAsc(xs, key), xs, key)
  {
    var neg := x => -key(x);
    SortDescSpec(xs, neg);
    var r := SortAsc(xs, key);
    forall k ensures WithKey(r, key, k) == WithKey(xs, key, k) {
      WithKeyNegated(r, key, k);
      WithKeyNegated(xs, key, k);
    }
  }

  lemma {:induction false} WithKeyNegated<T>(s: seq<T>, key: T -> real, k: real)
    ensures WithKey(s, x => -key(x), -k) == WithKey(s, key, k)
    decreases |s|
  {
    if s != [] {
      WithKeyNegated(s[1..], key, k);
    }
  }

  lemma SortDescEmpty<T>(key: T -> real)
    ensures SortDesc([], key) == []
  {
  }

  // ---------------------------------------------------------------------
  // Strings in Python's order
  // ---------------------------------------------------------------------

  /** a <= b for Python strings: lexicographic by code point, a proper
      prefix sorting first. */
  predicate LexLe(a: string, b: string)
    decreases |a|
  {
    a == [] || (b != [] && (a[0] < b[0] || (a[0] == b[0] && LexLe(a[1..], b[1..]))))
  }

  lemma {:induction false} LexLeTotal(a: string, b: string)
    ensures LexLe(a, b) || LexLe(b, a)
    decreases |a|
  {
    if a != [] && b != [] && a[0] == b[0] {
      LexLeTotal(a[1..], b[1..]);
    }
  }

  lemma {:induction false} LexLeAntisymmetric(a: string, b: string)
    requires LexLe(a, b) && LexLe(b, a)
    ensures a == b
    decreases |a|
  {
    if a != [] {
      LexLeAntisymmetric(a[1..], b[1..]);
      assert a == [a[0]] + a[1..] && b == [b[0]] + b[1..];
    }
  }

  lemma {:induction false} LexLeTransitive(a: string, b: string, c: string)
    requires LexLe(a, b) && LexLe(b, c)
    ensures LexLe(a, c)
    decreases |a|
  {
    if a != [] && a[0] == b[0] && b[0] == c[0] {
      LexLeTransitive(a[1..], b[1..], c[1..]);
    }
  }

  lemma LexLeReflexive(a: string)
    ensures LexLe(a, a)
  {
    LexLeTotal(a, a);
  }

  function InsertString(x: string, s: seq<string>): (r: seq<string>)
    ensures multiset(r) == multiset(s) + multiset{x}
    ensures |r| == |s| + 1
    decreases |s|
  {
    if s == [] || LexLe(s[0], x) then [x] + s
    else
      assert s == [s[0]] + s[1..];
      [s[0]] + InsertString(x, s[1..])
  }

  /** sorted(xs, reverse=True) for strings. */
  function SortStringsDesc(xs: seq<string>): (r: seq<string>)
    ensures multiset(r) == multiset(xs)
    ensures |r| == |xs|
    decreases |xs|
  {
    if xs == [] then []
    else
      assert xs == [xs[0]] + xs[1..];
      InsertString(xs[0], SortStringsDesc(xs[1..]))
  }

  ghost predicate StringsDescending(s: seq<string>) {
    forall i, j :: 0 <= i < j < |s| ==> LexLe(s[j], s[i])
  }

  lemma {:induction false} InsertStringDescending(x: string, s: seq<string>)
    requires StringsDescending(s)
    ensures StringsDescending(InsertString(x, s))
    decreases |s|
  {
    if s == [] || LexLe(s[0], x) {
      var r := [x] + s;
      forall i, j | 0 <= i < j < |r| ensures LexLe(r[j], r[i]) {
        if i == 0 {
          LexLeReflexive(s[0]);
          LexLeTransitive(s[j - 1], s[0], x);
        }
      }
    } else {
      InsertStringDescending(x, s[1..]);
      LexLeTotal(s[0], x);
      var t := InsertString(x, s[1..]);
      var r := [s[0]] + t;
      forall i, j | 0 <= i < j < |r| ensures LexLe(r[j], r[i]) {
        if i == 0 {
          if r[j] == x {
          } else {
            assert r[j] in multiset(t);
            assert r[j] in multiset(s[1..]);
            var m :| 0 <= m < |s[1..]| && s[1..][m] == r[j];
            assert s[m + 1] == r[j];
          }
        } else {
          assert r[i] == t[i - 1] && r[j] == t[j - 1];
        }
      }
    }
  }

  /** SortStringsDesc is a permutation in non-increasing string order. */
  lemma {:induction false} SortStringsDescSpec(xs: seq<string>)
    ensures multiset(SortStringsDesc(xs)) == multiset(xs)
    ensures StringsDescending(SortStringsDesc(xs))
    decreases |xs|
  {
    if xs != [] {
      SortStringsDescSpec(xs[1..]);
      InsertStringDescending(xs[0], SortStringsDesc(xs[1..]));
    }
  }

  /** The first of a descending sequence is its greatest item. */
  lemma FirstIsGreatest(a: seq<string>, x: string)
    requires StringsDescending(a) && x in multiset(a)
    ensures LexLe(x, a[0])
  {
    var i :| 0 <= i < |a| && a[i] == x;
    if i == 0 { LexLeReflexive(x); }
  }

  /** What is left of a sequence without its first item. */
  lemma TailMultiset(a: seq<string>)
    requires a != []
    ensures multiset(a[1..]) == multiset(a) - multiset{a[0]}
  {
    assert a == [a[0]] + a[1..];
  }

  lemma TailDescending(a: seq<string>)
    requires a != [] && StringsDescending(a)
    ensures StringsDescending(a[1..])
  {
    forall i, j | 0 <= i < j < |a| - 1 ensures LexLe(a[1..][j], a[1..][i]) {
      assert a[1..][j] == a[j + 1] && a[1..][i] == a[i + 1];
    }
  }

  /** Two descending orders of the same strings are the same sequence:
      the result of the sort depends only on what is sorted. */
  lemma {:induction false} DescendingUnique(a: seq<string>, b: seq<string>)
    requires StringsDescending(a) && StringsDescending(b)
    requires multiset(a) == multiset(b)
    ensures a == b
    decreases |a|
  {
    if a == [] {
      assert |multiset(b)| == |b|;
    } else {
      assert a[0] in multiset(b);
      assert b != [];
      assert b[0] in multiset(a);
      FirstIsGreatest(b, a[0]);
      FirstIsGreatest(a, b[0]);
      LexLeAntisymmetric(a[0], b[0]);
      TailMultiset(a);
      TailMultiset(b);
      TailDescending(a);
      TailDescending(b);
      DescendingUnique(a[1..], b[1..]);
      ConsEqual(a, b);
    }
  }

  lemma ConsEqual<T>(a: seq<T>, b: seq<T>)
    requires a != [] && b != [] && a[0] == b[0] && a[1..] == b[1..]
    ensures a == b
  {
    assert a == [a[0]] + a[1..] && b == [b[0]] + b[1..];
  }

  /** sorted(xs, reverse=True) does not depend on the order of xs. */
  lemma SortStringsDescPermutation(xs: seq<string>, ys: seq<string>)
    requires multiset(xs) == multiset(ys)
    ensures SortStringsDesc(xs) == SortStringsDesc(ys)
  {
    SortStringsDescSpec(xs);
    SortStringsDescSpec(ys);
    DescendingUnique(SortStringsDesc(xs), SortStringsDesc(ys));
  }
}
