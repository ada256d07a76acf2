/** The order on identifiers, and the stable sort that the source calls as `sorted` and `list.sort`. */
module Ordering {
  import opened Sequences

  ghost predicate TotalPreorder<T(!new)>(le: (T, T) -> bool) {
    && (forall a, b :: le(a, b) || le(b, a))
    && (forall a, b, c :: le(a, b) && le(b, c) ==> le(a, c))
  }

  ghost predicate Sorted<T>(s: seq<T>, le: (T, T) -> bool) {
    forall i, j :: 0 <= i < j < |s| ==> le(s[i], s[j])
  }

  /** Comparison of strings by code point, as the source compares identifiers. */
  predicate LexLeq(a: string, b: string) {
    a == "" || (b != "" && (a[0] < b[0] || (a[0] == b[0] && LexLeq(a[1..], b[1..]))))
  }

  lemma {:induction false} LexTotal(a: string, b: string)
    ensures LexLeq(a, b) || LexLeq(b, a)
    ensures LexLeq(a, b) && LexLeq(b, a) ==> a == b
  {
    if a != "" && b != "" {
      LexTotal(a[1..], b[1..]);
      assert a == [a[0]] + a[1..] && b == [b[0]] + b[1..];
    }
  }

  lemma {:induction false} LexTransitive(a: string, b: string, c: string)
    requires LexLeq(a, b) && LexLeq(b, c)
    ensures LexLeq(a, c)
  {
    if a != "" && a[0] == b[0] == c[0] {
      LexTransitive(a[1..], b[1..], c[1..]);
    }
  }

  /** A string comes before another when it is a prefix of it, or has the smaller character at the first place
      where they differ. */
  lemma {:induction false} LexMeaning(a: string, b: string)
    ensures LexLeq(a, b) <==> a <= b || exists k :: 0 <= k < |a| && k < |b| && a[..k] == b[..k] && a[k] < b[k]
  {
    if a != "" && b != "" && a[0] == b[0] {
      var x, y := a[1..], b[1..];
      LexMeaning(x, y);
      assert a == [a[0]] + x && b == [a[0]] + y;
      if k :| 0 <= k < |x| && k < |y| && x[..k] == y[..k] && x[k] < y[k] {
        assert a[..k + 1] == [a[0]] + x[..k] && b[..k + 1] == [a[0]] + y[..k];
      }
      if k :| 0 <= k < |a| && k < |b| && a[..k] == b[..k] && a[k] < b[k] {
        assert x[..k - 1] == a[..k][1..] && y[..k - 1] == b[..k][1..];
      }
    } else if a != "" && b != "" && a[0] < b[0] {
      assert a[..0] == b[..0];
    }
  }

  lemma LexIsTotalPreorder()
    ensures TotalPreorder(LexLeq)
  {
    forall a, b ensures LexLeq(a, b) || LexLeq(b, a) { LexTotal(a, b); }
    forall a, b, c | LexLeq(a, b) && LexLeq(b, c) ensures LexLeq(a, c) { LexTransitive(a, b, c); }
  }

  /** Puts x before the first element that is not smaller. */
  function Insert<T(!new)>(x: T, s: seq<T>, le: (T, T) -> bool): (r: seq<T>)
    ensures |r| == |s| + 1
    ensures forall y :: y in r <==> y == x || y in s
  {
    if s == [] || le(x, s[0]) then [x] + s else [s[0]] + Insert(x, s[1..], le)
  }

  /** A stable sort. */
  function Sort<T(!new)>(s: seq<T>, le: (T, T) -> bool): (r: seq<T>)
    ensures |r| == |s|
    ensures forall y :: y in r <==> y in s
  {
    if s == [] then [] else Insert(s[0], Sort(s[1..], le), le)
  }

  lemma {:induction false} InsertSorted<T(!new)>(x: T, s: seq<T>, le: (T, T) -> bool)
    requires TotalPreorder(le) && Sorted(s, le)
    ensures Sorted(Insert(x, s, le), le)
  {
    if s == [] || le(x, s[0]) {
      forall j | 0 <= j < |s| ensures le(x, s[j]) {
        assert j > 0 ==> le(s[0], s[j]);
      }
    } else {
      InsertSorted(x, s[1..], le);
      var t := Insert(x, s[1..], le);
      forall j | 0 <= j < |t| ensures le(s[0], t[j]) {
        assert t[j] == x || t[j] in s[1..];
      }
    }
  }

  lemma {:induction false} SortSorted<T(!new)>(s: seq<T>, le: (T, T) -> bool)
    requires TotalPreorder(le)
    ensures Sorted(Sort(s, le), le)
  {
    if s != [] {
      SortSorted(s[1..], le);
      InsertSorted(s[0], Sort(s[1..], le), le);
    }
  }

  lemma {:induction false} InsertMultiset<T(!new)>(x: T, s: seq<T>, le: (T, T) -> bool)
    ensures multiset(Insert(x, s, le)) == multiset(s) + multiset{x}
  {
    if s == [] || le(x, s[0]) {
    } else {
      InsertMultiset(x, s[1..], le);
      assert s == [s[0]] + s[1..];
    }
  }

  /** Sorting permutes. */
  lemma {:induction false} SortMultiset<T(!new)>(s: seq<T>, le: (T, T) -> bool)
    ensures multiset(Sort(s, le)) == multiset(s)
  {
    if s != [] {
      SortMultiset(s[1..], le);
      InsertMultiset(s[0], Sort(s[1..], le), le);
      assert s == [s[0]] + s[1..];
    }
  }

  lemma {:induction false} InsertNoDup<T(!new)>(x: T, s: seq<T>, le: (T, T) -> bool)
    requires NoDup(s) && x !in s
    ensures NoDup(Insert(x, s, le))
  {
    if s == [] || le(x, s[0]) {
    } else {
      InsertNoDup(x, s[1..], le);
      assert s[0] !in s[1..];
    }
  }

  lemma {:induction false} SortNoDup<T(!new)>(s: seq<T>, le: (T, T) -> bool)
    requires NoDup(s)
    ensures NoDup(Sort(s, le))
  {
    if s != [] {
      SortNoDup(s[1..], le);
      assert s[0] !in s[1..];
      InsertNoDup(s[0], Sort(s[1..], le), le);
    }
  }

  lemma FilterCons<T(!new)>(x: T, s: seq<T>, keep: T -> bool)
    ensures Filter([x] + s, keep) == (if keep(x) then [x] else []) + Filter(s, keep)
  {
    assert ([x] + s)[1..] == s;
  }

  lemma InsertFront<T(!new)>(x: T, s: seq<T>, le: (T, T) -> bool)
    requires s == [] || le(x, s[0])
    ensures Insert(x, s, le) == [x] + s
  {
  }

  lemma InsertBehind<T(!new)>(x: T, y: T, s: seq<T>, le: (T, T) -> bool)
    requires !le(x, y)
    ensures Insert(x, [y] + s, le) == [y] + Insert(x, s, le)
  {
    assert ([y] + s)[1..] == s;
  }

  lemma FirstIsLeast<T(!new)>(x: T, s: seq<T>, le: (T, T) -> bool, y: T)
    requires TotalPreorder(le) && Sorted(s, le) && s != [] && le(x, s[0]) && y in s
    ensures le(x, y)
  {
    var k :| 0 <= k < |s| && s[k] == y;
    assert k > 0 ==> le(s[0], s[k]);
  }

  lemma {:induction false} FilterInsertKept<T(!new)>(x: T, s: seq<T>, le: (T, T) -> bool, keep: T -> bool)
    requires TotalPreorder(le) && Sorted(s, le) && keep(x)
    ensures Filter(Insert(x, s, le), keep) == Insert(x, Filter(s, keep), le)
  {
    hide Filter, Insert;
    var f := Filter(s, keep);
    if s == [] || le(x, s[0]) {
      InsertFront(x, s, le);
      FilterCons(x, s, keep);
      if f != [] { FirstIsLeast(x, s, le, f[0]); }
      InsertFront(x, f, le);
    } else {
      var y, t := s[0], s[1..];
      assert s == [y] + t;
      InsertBehind(x, y, t, le);
      FilterInsertKept(x, t, le, keep);
      FilterCons(y, Insert(x, t, le), keep);
      FilterCons(y, t, keep);
      if keep(y) { InsertBehind(x, y, Filter(t, keep), le); }
      assert [] + Filter(t, keep) == Filter(t, keep);
    }
  }

  lemma {:induction false} FilterInsertDropped<T(!new)>(x: T, s: seq<T>, le: (T, T) -> bool, keep: T -> bool)
    requires !keep(x)
    ensures Filter(Insert(x, s, le), keep) == Filter(s, keep)
  {
    if s == [] || le(x, s[0]) {
      assert ([x] + s)[1..] == s;
    } else {
      FilterInsertDropped(x, s[1..], le, keep);
      assert Insert(x, s, le)[1..] == Insert(x, s[1..], le);
    }
  }

  /** Stability: sorting commutes with every filter. */
  lemma {:induction false} SortFilter<T(!new)>(s: seq<T>, le: (T, T) -> bool, keep: T -> bool)
    requires TotalPreorder(le)
    ensures Sort(Filter(s, keep), le) == Filter(Sort(s, le), keep)
  {
    if s != [] {
      SortFilter(s[1..], le, keep);
      SortSorted(s[1..], le);
      if keep(s[0]) {
        FilterInsertKept(s[0], Sort(s[1..], le), le, keep);
        assert Filter(s, keep)[1..] == Filter(s[1..], keep);
      } else {
        FilterInsertDropped(s[0], Sort(s[1..], le), le, keep);
        assert Filter(s, keep) == Filter(s[1..], keep);
      }
    }
  }
}
