/** The LINQ operators the controllers use, over in-memory sequences:
    `Where`, `Select`, `Distinct` and `OrderBy` (a stable insertion sort
    driven by a three-way comparison). */
module Linq {
  import opened Text

  /** `cmp` behaves as a total preorder: swapping its arguments flips the
      answer, and "not greater" is transitive. */
  ghost predicate IsTotalPreorder<T(!new)>(cmp: (T, T) -> Ordering) {
    && (forall x, y :: cmp(y, x) == cmp(x, y).Flip())
    && (forall x, y, z :: cmp(x, y) != Greater && cmp(y, z) != Greater ==> cmp(x, z) != Greater)
  }

  /** Every element is not greater than any element after it. */
  ghost predicate SortedBy<T>(s: seq<T>, cmp: (T, T) -> Ordering) {
    forall i, j :: 0 <= i < j < |s| ==> cmp(s[i], s[j]) != Greater
  }

  /** Puts `x` in front of the first element it is not greater than. */
  function Insert<T>(x: T, s: seq<T>, cmp: (T, T) -> Ordering): (r: seq<T>)
    ensures multiset(r) == multiset(s) + multiset{x}
  {
    if s == [] || cmp(x, s[0]) != Greater then [x] + s
    else
      assert s == [s[0]] + s[1..];
      [s[0]] + Insert(x, s[1..], cmp)
  }

  /** `Insert` splices `x` in at one position and keeps the rest in order. */
  lemma {:induction false} InsertAt<T>(x: T, s: seq<T>, cmp: (T, T) -> Ordering)
    ensures exists k :: 0 <= k <= |s| && Insert(x, s, cmp) == s[..k] + [x] + s[k..]
  {
    if s == [] || cmp(x, s[0]) != Greater {
      assert Insert(x, s, cmp) == s[..0] + [x] + s[0..];
    } else {
      InsertAt(x, s[1..], cmp);
      var t := s[1..];
      var k :| 0 <= k <= |t| && Insert(x, t, cmp) == t[..k] + [x] + t[k..];
      assert s[..k + 1] == [s[0]] + t[..k] && s[k + 1..] == t[k..];
      assert Insert(x, s, cmp) == [s[0]] + (t[..k] + [x] + t[k..]);
      assert Insert(x, s, cmp) == s[..k + 1] + [x] + s[k + 1..];
    }
  }

  /** Sorts `s` by inserting each element, from the last to the first, in
      front of the first element it is not greater than. Callers that need
      ties kept in input order add the position as a last key. */
  function Sort<T>(s: seq<T>, cmp: (T, T) -> Ordering): (r: seq<T>)
    ensures multiset(r) == multiset(s)
    ensures |r| == |s|
  {
    if s == [] then []
    else
      assert s == [s[0]] + s[1..];
      Insert(s[0], Sort(s[1..], cmp), cmp)
  }

  lemma {:induction false} InsertSorted<T(!new)>(x: T, s: seq<T>, cmp: (T, T) -> Ordering)
    requires IsTotalPreorder(cmp)
    requires SortedBy(s, cmp)
    ensures SortedBy(Insert(x, s, cmp), cmp)
  {
    if s == [] || cmp(x, s[0]) != Greater {
    } else {
      InsertSorted(x, s[1..], cmp);
      var rest := Insert(x, s[1..], cmp);
      assert cmp(s[0], x) != Greater;
      forall j | 0 <= j < |rest| ensures cmp(s[0], rest[j]) != Greater {
        assert rest[j] in multiset(rest);
        assert rest[j] == x || rest[j] in s[1..];
      }
    }
  }

  /** `Sort` puts its input in order. */
  lemma {:induction false} SortSorted<T(!new)>(s: seq<T>, cmp: (T, T) -> Ordering)
    requires IsTotalPreorder(cmp)
    ensures SortedBy(Sort(s, cmp), cmp)
  {
    if s != [] {
      SortSorted(s[1..], cmp);
      InsertSorted(s[0], Sort(s[1..], cmp), cmp);
    }
  }

  /** `s[k]` is not greater than any element of `s`, and every element before
      it is greater than it: the earliest of the least elements. */
  ghost predicate FirstLeastAt<T>(s: seq<T>, cmp: (T, T) -> Ordering, k: int) {
    && 0 <= k < |s|
    && (forall j :: 0 <= j < |s| ==> cmp(s[k], s[j]) != Greater)
    && (forall j :: 0 <= j < k ==> cmp(s[j], s[k]) == Greater)
  }

  /** The first element of a sorted sequence is the earliest of the least
      elements of the input: `OrderBy(...).FirstOrDefault()`. */
  lemma {:induction false} SortHead<T(!new)>(s: seq<T>, cmp: (T, T) -> Ordering)
    requires IsTotalPreorder(cmp)
    requires s != []
    ensures exists k :: FirstLeastAt(s, cmp, k) && Sort(s, cmp)[0] == s[k]
  {
    var x := s[0];
    if |s| == 1 {
      assert Sort(s, cmp) == Insert(x, [], cmp) == [x];
      assert cmp(x, x) == cmp(x, x).Flip();
      assert FirstLeastAt(s, cmp, 0);
    } else {
      var t := s[1..];
      SortHead(t, cmp);
      var k :| FirstLeastAt(t, cmp, k) && Sort(t, cmp)[0] == t[k];
      var sorted := Sort(t, cmp);
      assert Sort(s, cmp) == Insert(x, sorted, cmp);
      if cmp(x, t[k]) != Greater {
        HeadStays(s, cmp, k);
        assert Sort(s, cmp) == [x] + sorted;
        assert Sort(s, cmp)[0] == s[0];
      } else {
        HeadMoves(s, cmp, k);
        assert Sort(s, cmp) == [sorted[0]] + Insert(x, sorted[1..], cmp);
        assert Sort(s, cmp)[0] == s[k + 1];
      }
    }
  }

  lemma HeadStays<T(!new)>(s: seq<T>, cmp: (T, T) -> Ordering, k: int)
    requires IsTotalPreorder(cmp) && |s| > 1
    requires FirstLeastAt(s[1..], cmp, k) && cmp(s[0], s[1..][k]) != Greater
    ensures FirstLeastAt(s, cmp, 0)
  {
    assert cmp(s[0], s[0]) == cmp(s[0], s[0]).Flip();
    forall j | 1 <= j < |s| ensures cmp(s[0], s[j]) != Greater {
      assert s[j] == s[1..][j - 1];
    }
  }

  lemma HeadMoves<T(!new)>(s: seq<T>, cmp: (T, T) -> Ordering, k: int)
    requires IsTotalPreorder(cmp) && |s| > 1
    requires FirstLeastAt(s[1..], cmp, k) && cmp(s[0], s[1..][k]) == Greater
    ensures FirstLeastAt(s, cmp, k + 1)
  {
    var t := s[1..];
    assert s[k + 1] == t[k];
    assert cmp(t[k], s[0]) == Less;
    forall j | 1 <= j < |s| ensures cmp(s[k + 1], s[j]) != Greater {
      assert s[j] == t[j - 1];
    }
    forall j | 1 <= j < k + 1 ensures cmp(s[j], s[k + 1]) == Greater {
      assert s[j] == t[j - 1];
    }
  }

  /** The default order on strings, as `OrderBy(c => c)` uses it. */
  function StringCmp(): (string, string) -> Ordering {
    (a, b) => CompareStrings(a, b)
  }

  lemma StringCmpIsTotalPreorder()
    ensures IsTotalPreorder(StringCmp())
  {
    forall a, b ensures CompareStrings(b, a) == CompareStrings(a, b).Flip() {
      CompareStringsFlip(a, b);
    }
    forall a, b, c | CompareStrings(a, b) != Greater && CompareStrings(b, c) != Greater
      ensures CompareStrings(a, c) != Greater
    {
      CompareStringsTrans(a, b, c);
    }
  }

  // ------------------------------------------------------------ images

  /** `s.Select(f)` */
  function MapSeq<T, U>(s: seq<T>, f: T -> U): (r: seq<U>)
    ensures |r| == |s|
    ensures forall i :: 0 <= i < |s| ==> r[i] == f(s[i])
  {
    if s == [] then [] else [f(s[0])] + MapSeq(s[1..], f)
  }

  lemma {:induction false} InsertImage<T, U>(x: T, s: seq<T>, cmp: (T, T) -> Ordering, f: T -> U)
    ensures multiset(MapSeq(Insert(x, s, cmp), f)) == multiset(MapSeq(s, f)) + multiset{f(x)}
  {
    if s == [] || cmp(x, s[0]) != Greater {
      assert ([x] + s)[1..] == s;
    } else {
      InsertImage(x, s[1..], cmp, f);
      assert ([s[0]] + Insert(x, s[1..], cmp))[1..] == Insert(x, s[1..], cmp);
    }
  }

  /** Sorting permutes the images of the elements under any `f` as well. */
  lemma {:induction false} SortPermutesImages<T, U>(s: seq<T>, cmp: (T, T) -> Ordering, f: T -> U)
    ensures multiset(MapSeq(Sort(s, cmp), f)) == multiset(MapSeq(s, f))
  {
    if s != [] {
      SortPermutesImages(s[1..], cmp, f);
      InsertImage(s[0], Sort(s[1..], cmp), cmp, f);
    }
  }

  // ------------------------------------------------------------ Where

  /** `s.Where(keep)`: the elements that satisfy `keep`, in their order,
      each as often as it occurs in `s`. */
  function Where<T(!new)>(s: seq<T>, keep: T -> bool): (r: seq<T>)
    ensures |r| <= |s|
  {
    if s == [] then [] else (if keep(s[0]) then [s[0]] else []) + Where(s[1..], keep)
  }

  /** Filtering a concatenation filters each part: the kept elements stay in
      the order of the input. */
  lemma {:induction false} WhereAppend<T(!new)>(s: seq<T>, t: seq<T>, keep: T -> bool)
    ensures Where(s + t, keep) == Where(s, keep) + Where(t, keep)
  {
    if s == [] {
      assert s + t == t;
    } else {
      var head := if keep(s[0]) then [s[0]] else [];
      var st := s + t;
      assert st[0] == s[0] && st[1..] == s[1..] + t;
      WhereAppend(s[1..], t, keep);
      calc {
        Where(st, keep);
        head + Where(s[1..] + t, keep);
        head + (Where(s[1..], keep) + Where(t, keep));
        (head + Where(s[1..], keep)) + Where(t, keep);
        Where(s, keep) + Where(t, keep);
      }
    }
  }

  /** `Where` keeps each element that satisfies `keep` exactly as often as it
      occurs in `s`, and drops every other element. */
  lemma {:induction false} WhereCount<T(!new)>(s: seq<T>, keep: T -> bool)
    ensures forall x :: multiset(Where(s, keep))[x] == if keep(x) then multiset(s)[x] else 0
  {
    if s != [] {
      WhereCount(s[1..], keep);
      assert s == [s[0]] + s[1..];
    }
  }

  /** `s[m]` is kept, is not greater than any kept element of `s`, and every
      kept element before it is greater than it. */
  ghost predicate FirstLeastKeptAt<T>(s: seq<T>, keep: T -> bool, cmp: (T, T) -> Ordering, m: int) {
    && 0 <= m < |s| && keep(s[m])
    && (forall j :: 0 <= j < |s| && keep(s[j]) ==> cmp(s[m], s[j]) != Greater)
    && (forall j :: 0 <= j < m && keep(s[j]) ==> cmp(s[j], s[m]) == Greater)
  }

  /** The earliest least element of a filtered sequence is the earliest least
      kept element of the unfiltered one. */
  lemma {:induction false} WhereFirstLeast<T(!new)>(s: seq<T>, keep: T -> bool, cmp: (T, T) -> Ordering, k: int)
    requires FirstLeastAt(Where(s, keep), cmp, k)
    ensures exists m :: FirstLeastKeptAt(s, keep, cmp, m) && s[m] == Where(s, keep)[k]
  {
    var t := s[1..];
    if keep(s[0]) {
      assert Where(s, keep) == [s[0]] + Where(t, keep);
      if k == 0 {
        WhereHeadLeast(s, keep, cmp);
      } else {
        WhereDropHead(s, keep, cmp, k);
        WhereFirstLeast(t, keep, cmp, k - 1);
        var m :| FirstLeastKeptAt(t, keep, cmp, m) && t[m] == Where(t, keep)[k - 1];
        WhereShiftLeast(s, keep, cmp, k, m);
      }
    } else {
      assert Where(s, keep) == [] + Where(t, keep) == Where(t, keep);
      WhereFirstLeast(t, keep, cmp, k);
      var m :| FirstLeastKeptAt(t, keep, cmp, m) && t[m] == Where(t, keep)[k];
      assert FirstLeastKeptAt(s, keep, cmp, m + 1) by {
        forall j | 1 <= j < |s| ensures s[j] == t[j - 1] { }
      }
    }
  }

  /** A kept element of `s` is an element of the filtered sequence. */
  lemma {:induction false} WhereMember<T(!new)>(s: seq<T>, keep: T -> bool, j: int)
    requires 0 <= j < |s| && keep(s[j])
    ensures s[j] in Where(s, keep)
  {
    if j > 0 {
      WhereMember(s[1..], keep, j - 1);
    }
  }

  lemma WhereHeadLeast<T(!new)>(s: seq<T>, keep: T -> bool, cmp: (T, T) -> Ordering)
    requires s != [] && keep(s[0])
    requires FirstLeastAt(Where(s, keep), cmp, 0)
    ensures FirstLeastKeptAt(s, keep, cmp, 0)
  {
    forall j | 0 <= j < |s| && keep(s[j]) ensures cmp(s[0], s[j]) != Greater {
      HeadNotGreater(s, keep, cmp, j);
    }
  }

  lemma HeadNotGreater<T(!new)>(s: seq<T>, keep: T -> bool, cmp: (T, T) -> Ordering, j: int)
    requires s != [] && keep(s[0])
    requires FirstLeastAt(Where(s, keep), cmp, 0)
    requires 0 <= j < |s| && keep(s[j])
    ensures cmp(s[0], s[j]) != Greater
  {
    var w := Where(s, keep);
    KeptInWhere(s, keep, j);
    var i :| 0 <= i < |w| && w[i] == s[j];
    assert cmp(w[0], w[i]) != Greater;
  }

  /** With the head kept, the head leads the filtered sequence and every kept
      element occurs in it. */
  lemma KeptInWhere<T(!new)>(s: seq<T>, keep: T -> bool, j: int)
    requires s != [] && keep(s[0])
    requires 0 <= j < |s| && keep(s[j])
    ensures Where(s, keep) != [] && Where(s, keep)[0] == s[0]
    ensures exists i :: 0 <= i < |Where(s, keep)| && Where(s, keep)[i] == s[j]
  {
    var w := Where(s, keep);
    assert w == [s[0]] + Where(s[1..], keep);
    if j == 0 {
      assert w[0] == s[j];
    } else {
      WhereMember(s, keep, j);
    }
  }

  lemma WhereDropHead<T(!new)>(s: seq<T>, keep: T -> bool, cmp: (T, T) -> Ordering, k: int)
    requires s != [] && keep(s[0]) && k > 0
    requires FirstLeastAt(Where(s, keep), cmp, k)
    ensures FirstLeastAt(Where(s[1..], keep), cmp, k - 1)
  {
    var w := Where(s, keep);
    var w' := Where(s[1..], keep);
    assert w == [s[0]] + w';
    forall j | 0 <= j < |w'| ensures w'[j] == w[j + 1] { }
  }

  lemma WhereShiftLeast<T(!new)>(s: seq<T>, keep: T -> bool, cmp: (T, T) -> Ordering, k: int, m: int)
    requires s != [] && keep(s[0]) && k > 0
    requires FirstLeastAt(Where(s, keep), cmp, k)
    requires FirstLeastKeptAt(s[1..], keep, cmp, m) && s[1..][m] == Where(s[1..], keep)[k - 1]
    ensures FirstLeastKeptAt(s, keep, cmp, m + 1) && s[m + 1] == Where(s, keep)[k]
  {
    var w := Where(s, keep);
    assert w == [s[0]] + Where(s[1..], keep);
    assert s[m + 1] == w[k] && s[0] == w[0];
    forall j | 1 <= j < |s| ensures s[j] == s[1..][j - 1] { }
  }

  /** A filter that keeps everything changes nothing. */
  lemma {:induction false} WhereAll<T(!new)>(s: seq<T>, keep: T -> bool)
    requires forall x :: keep(x)
    ensures Where(s, keep) == s
  {
    if s != [] {
      WhereAll(s[1..], keep);
    }
  }

  /** Three filters applied in turn, each only while it is switched on,
      keep what their conjunction keeps, given that a filter switched off
      passes everything. */
  lemma OptionalWhere3<T(!new)>(s: seq<T>, on1: bool, f1: T -> bool, on2: bool, f2: T -> bool,
                                on3: bool, f3: T -> bool, all: T -> bool)
    requires !on1 ==> forall x :: f1(x)
    requires !on2 ==> forall x :: f2(x)
    requires !on3 ==> forall x :: f3(x)
    requires forall x :: all(x) == (f1(x) && f2(x) && f3(x))
    ensures var s1 := if on1 then Where(s, f1) else s;
      var s2 := if on2 then Where(s1, f2) else s1;
      (if on3 then Where(s2, f3) else s2) == Where(s, all)
  {
    var f12: T -> bool := x => f1(x) && f2(x);
    var s1 := if on1 then Where(s, f1) else s;
    var s2 := if on2 then Where(s1, f2) else s1;
    if !on1 { WhereAll(s, f1); }
    if !on2 { WhereAll(s1, f2); }
    WhereWhere(s, f1, f2, f12);
    if !on3 { WhereAll(s2, f3); }
    WhereWhere(s, f12, f3, all);
  }

  /** Two filters in a row keep what their conjunction keeps. */
  lemma {:induction false} WhereWhere<T(!new)>(s: seq<T>, a: T -> bool, b: T -> bool, both: T -> bool)
    requires forall x :: both(x) == (a(x) && b(x))
    ensures Where(Where(s, a), b) == Where(s, both)
  {
    if s != [] {
      WhereWhere(s[1..], a, b, both);
      var w := Where(s[1..], a);
      if a(s[0]) {
        assert Where(s, a) == [s[0]] + w;
        assert ([s[0]] + w)[0] == s[0] && ([s[0]] + w)[1..] == w;
        assert Where([s[0]] + w, b) == (if b(s[0]) then [s[0]] else []) + Where(w, b);
      } else {
        assert Where(s, a) == [] + w == w;
        assert Where(s, both) == [] + Where(s[1..], both) == Where(s[1..], both);
      }
    }
  }

  // ------------------------------------------------------------ Distinct

  /** `s.Distinct()`: the first occurrence of each element, in order. */
  function Distinct<T(==,!new)>(s: seq<T>): (r: seq<T>)
    ensures forall x :: x in r <==> x in s
    ensures NoDuplicates(r)
    decreases |s|
  {
    if s == [] then []
    else
      var rest := Where(s[1..], x => x != s[0]);
      WhereCount(s[1..], x => x != s[0]);
      assert forall x :: x in rest <==> x in s[1..] && x != s[0] by {
        forall x ensures x in rest <==> x in s[1..] && x != s[0] {
          assert x in rest <==> multiset(rest)[x] > 0;
        }
      }
      var d := Distinct(rest);
      assert NoDuplicates([s[0]] + d) by {
        forall j | 0 < j < |d| + 1 ensures ([s[0]] + d)[j] != s[0] {
          assert ([s[0]] + d)[j] == d[j - 1] && d[j - 1] in d;
        }
      }
      [s[0]] + d
  }

  // ------------------------------------------------------------ distinctness

  ghost predicate NoDuplicates<T>(s: seq<T>) {
    forall i, j :: 0 <= i < j < |s| ==> s[i] != s[j]
  }

  lemma {:induction false} DistinctCount<T>(s: seq<T>, x: T)
    requires NoDuplicates(s)
    ensures multiset(s)[x] <= 1
  {
    if s != [] {
      assert s == [s[0]] + s[1..];
      DistinctCount(s[1..], x);
      if s[0] == x {
        assert x !in s[1..];
      }
    }
  }

  /** A permutation of a sequence without repetitions has none either. */
  lemma DistinctPermutation<T>(a: seq<T>, b: seq<T>)
    requires multiset(a) == multiset(b)
    requires NoDuplicates(b)
    ensures NoDuplicates(a)
  {
    forall i, j | 0 <= i < j < |a| ensures a[i] != a[j] {
      if a[i] == a[j] {
        assert a == a[..i] + [a[i]] + a[i + 1..j] + [a[j]] + a[j + 1..];
        assert multiset(a)[a[i]] >= 2;
        DistinctCount(b, a[i]);
      }
    }
  }
}
