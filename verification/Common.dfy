/** Small value types and sequence facts shared by the component models. */
module Common {

  datatype Option<+T> = None | Some(value: T)

  /** The lexicographic order Go's `<` uses on strings. */
  predicate StringLess(a: string, b: string)
  {
    if |b| == 0 then false
    else if |a| == 0 then true
    else a[0] < b[0] || (a[0] == b[0] && StringLess(a[1..], b[1..]))
  }

  lemma {:induction false} StringLessTotal(a: string, b: string)
    ensures StringLess(a, b) || a == b || StringLess(b, a)
    ensures !(StringLess(a, b) && StringLess(b, a))
    ensures StringLess(a, b) ==> a != b
  {
    if |a| > 0 && |b| > 0 {
      StringLessTotal(a[1..], b[1..]);
      if a[0] == b[0] && a[1..] == b[1..] {
        assert a == [a[0]] + a[1..] && b == [b[0]] + b[1..];
      }
    }
  }

  lemma {:induction false} StringLessTransitive(a: string, b: string, c: string)
    requires StringLess(a, b) && StringLess(b, c)
    ensures StringLess(a, c)
  {
    if |a| > 0 && a[0] == b[0] == c[0] {
      StringLessTransitive(a[1..], b[1..], c[1..]);
    }
  }

  /** `less` orders any two different values one way and never both. */
  ghost predicate StrictTotal<T(!new)>(less: (T, T) -> bool)
  {
    && (forall x :: !less(x, x))
    && (forall x, y :: x == y || less(x, y) || less(y, x))
    && (forall x, y, z :: less(x, y) && less(y, z) ==> less(x, z))
  }

  ghost predicate SortedBy<T(!new)>(less: (T, T) -> bool, s: seq<T>)
  {
    forall i, j :: 0 <= i < j < |s| ==> less(s[i], s[j])
  }

  lemma {:induction false} StringOrderIsStrictTotal()
    ensures StrictTotal(StringLess)
  {
    forall x, y ensures !StringLess(x, x) && (x == y || StringLess(x, y) || StringLess(y, x)) {
      StringLessTotal(x, x);
      StringLessTotal(x, y);
    }
    forall x, y, z | StringLess(x, y) && StringLess(y, z) ensures StringLess(x, z) {
      StringLessTransitive(x, y, z);
    }
  }

  /** Two sequences with the same elements, both in an order that never holds both ways, are the same sequence. */
  lemma {:induction false} SortedIsUnique<T(!new)>(less: (T, T) -> bool, s: seq<T>, t: seq<T>)
    requires SortedBy(less, s) && SortedBy(less, t)
    requires forall x, y :: !(less(x, y) && less(y, x))
    requires forall x :: x in s <==> x in t
    ensures s == t
  {
    assert |s| > 0 ==> s[0] in s;
    assert |t| > 0 ==> t[0] in t;
    if |s| > 0 {
      assert s[0] == t[0] by { assert s[0] in t && t[0] in s; }
      forall x ensures x in s[1..] <==> x in t[1..] {
        assert x in s <==> x in t;
        assert s == [s[0]] + s[1..] && t == [t[0]] + t[1..];
        assert x in s[1..] ==> less(s[0], x);
        assert x in t[1..] ==> less(t[0], x);
      }
      SortedIsUnique(less, s[1..], t[1..]);
      assert s == [s[0]] + s[1..] && t == [t[0]] + t[1..];
    }
  }

  /** Insertion into a sorted sequence. */
  function Insert<T(!new)>(less: (T, T) -> bool, x: T, s: seq<T>): (r: seq<T>)
    ensures |r| == |s| + 1
    ensures forall y :: y in r <==> y == x || y in s
  {
    if |s| == 0 || less(x, s[0]) then
      [x] + s
    else
      assert s == [s[0]] + s[1..];
      [s[0]] + Insert(less, x, s[1..])
  }

  /** What Go's sort package computes: the elements of `s`, in the order `less`. */
  function Sort<T(!new)>(less: (T, T) -> bool, s: seq<T>): (r: seq<T>)
    ensures |r| == |s|
    ensures forall x :: x in r <==> x in s
  {
    if |s| == 0 then
      []
    else
      assert s == [s[0]] + s[1..];
      Insert(less, s[0], Sort(less, s[1..]))
  }

  /** `less` orders any two different elements of `s` one way and never both. */
  ghost predicate StrictTotalOn<T(!new)>(less: (T, T) -> bool, s: seq<T>)
  {
    && (forall x :: x in s ==> !less(x, x))
    && (forall x, y :: x in s && y in s ==> x == y || less(x, y) || less(y, x))
    && (forall x, y, z :: x in s && y in s && z in s && less(x, y) && less(y, z) ==> less(x, z))
  }

  lemma {:induction false} TotalOnAll<T(!new)>(less: (T, T) -> bool, s: seq<T>)
    requires StrictTotal(less)
    ensures StrictTotalOn(less, s)
  {
  }

  lemma {:induction false} InsertKeepsOrder<T(!new)>(less: (T, T) -> bool, x: T, s: seq<T>)
    requires StrictTotalOn(less, [x] + s) && SortedBy(less, s) && x !in s
    ensures SortedBy(less, Insert(less, x, s))
  {
    assert x in [x] + s && forall y :: y in s ==> y in [x] + s;
    if |s| > 0 && !less(x, s[0]) {
      InsertKeepsOrder(less, x, s[1..]);
      forall y | y in Insert(less, x, s[1..]) ensures less(s[0], y) {
        if y != x {
          var j :| 0 <= j < |s[1..]| && s[1..][j] == y;
          assert s[j + 1] == y;
        }
      }
    }
  }

  /** Sorting distinct values puts them in order. */
  lemma {:induction false} SortSorts<T(!new)>(less: (T, T) -> bool, s: seq<T>)
    requires StrictTotalOn(less, s)
    requires forall i, j :: 0 <= i < j < |s| ==> s[i] != s[j]
    ensures SortedBy(less, Sort(less, s))
  {
    if |s| > 0 {
      var rest := Sort(less, s[1..]);
      SortSorts(less, s[1..]);
      assert s == [s[0]] + s[1..];
      assert forall y :: y in [s[0]] + rest ==> y in s;
      InsertKeepsOrder(less, s[0], rest);
    }
  }

  /** No later element comes before an earlier one: sorted, with room for equals. */
  ghost predicate NonDescending<T(!new)>(less: (T, T) -> bool, s: seq<T>)
  {
    forall i, j :: 0 <= i < j < |s| ==> !less(s[j], s[i])
  }

  lemma {:induction false} InsertPermutes<T(!new)>(less: (T, T) -> bool, x: T, s: seq<T>)
    ensures multiset(Insert(less, x, s)) == multiset(s) + multiset{x}
  {
    if |s| > 0 {
      assert s == [s[0]] + s[1..];
      InsertPermutes(less, x, s[1..]);
    }
  }

  lemma {:induction false} InsertDescendsNowhere<T(!new)>(less: (T, T) -> bool, x: T, s: seq<T>)
    requires StrictTotal(less) && NonDescending(less, s)
    ensures NonDescending(less, Insert(less, x, s))
  {
    if |s| > 0 && !less(x, s[0]) {
      InsertDescendsNowhere(less, x, s[1..]);
      forall y | y in Insert(less, x, s[1..]) ensures !less(y, s[0]) {
        assert y == x || y in s[1..];
      }
    }
  }

  /** Sorting keeps every element as often as it occurred. */
  lemma {:induction false} SortPermutes<T(!new)>(less: (T, T) -> bool, s: seq<T>)
    requires StrictTotal(less)
    ensures NonDescending(less, Sort(less, s)) && multiset(Sort(less, s)) == multiset(s)
  {
    if |s| > 0 {
      assert s == [s[0]] + s[1..];
      SortPermutes(less, s[1..]);
      InsertPermutes(less, s[0], Sort(less, s[1..]));
      InsertDescendsNowhere(less, s[0], Sort(less, s[1..]));
    }
  }
}
