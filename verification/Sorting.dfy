/** Sorting by an order, as the library sort is specified. */
module Sorting {

  ghost predicate IsOrder<T(!new)>(before: (T, T) -> bool) {
    && (forall a, b :: before(a, b) || before(b, a))
    && (forall a, b, c :: before(a, b) && before(b, c) ==> before(a, c))
  }

  ghost predicate InOrder<T>(before: (T, T) -> bool, s: seq<T>) {
    forall i, j :: 0 <= i < j < |s| ==> before(s[i], s[j])
  }

  function Insert<T>(before: (T, T) -> bool, x: T, s: seq<T>): (r: seq<T>)
    ensures |r| == |s| + 1
  {
    if s == [] || before(x, s[0]) then [x] + s else [s[0]] + Insert(before, x, s[1..])
  }

  function Sort<T>(before: (T, T) -> bool, s: seq<T>): (r: seq<T>)
    ensures |r| == |s|
  {
    if s == [] then [] else Insert(before, s[0], Sort(before, s[1..]))
  }

  lemma {:induction false} InsertMembers<T>(before: (T, T) -> bool, x: T, s: seq<T>)
    ensures multiset(Insert(before, x, s)) == multiset(s) + multiset{x}
  {
    if !(s == [] || before(x, s[0])) {
      InsertMembers(before, x, s[1..]);
      assert s == [s[0]] + s[1..];
    }
  }

  lemma {:induction false} InsertSorts<T(!new)>(before: (T, T) -> bool, x: T, s: seq<T>)
    requires IsOrder(before) && InOrder(before, s)
    ensures InOrder(before, Insert(before, x, s))
  {
    if s == [] {
    } else if before(x, s[0]) {
      var r := [x] + s;
      forall j | 0 < j < |r|
        ensures before(x, r[j])
      {
        assert j > 1 ==> before(s[0], s[j - 1]);
      }
    } else {
      var t := Insert(before, x, s[1..]);
      InsertSorts(before, x, s[1..]);
      InsertMembers(before, x, s[1..]);
      forall j | 0 <= j < |t|
        ensures before(s[0], t[j])
      {
        assert t[j] in multiset(t);
        if t[j] != x {
          assert t[j] in s[1..];
          var i :| 0 <= i < |s[1..]| && s[1..][i] == t[j];
          assert before(s[0], s[i + 1]);
        }
      }
    }
  }

  /** Sorting orders the elements and neither drops nor adds any. */
  lemma {:induction false} SortSorts<T(!new)>(before: (T, T) -> bool, s: seq<T>)
    requires IsOrder(before)
    ensures InOrder(before, Sort(before, s)) && multiset(Sort(before, s)) == multiset(s)
  {
    if s != [] {
      SortSorts(before, s[1..]);
      InsertSorts(before, s[0], Sort(before, s[1..]));
      InsertMembers(before, s[0], Sort(before, s[1..]));
      assert s == [s[0]] + s[1..];
    }
  }
}
