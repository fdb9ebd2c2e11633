/** Python's `sorted(s, key=...)`: a stable sort, smallest key first. */
module StableSort {

  function Insert<T>(x: T, s: seq<T>, key: T -> real): (r: seq<T>)
    ensures |r| == |s| + 1
  {
    if s == [] || key(x) <= key(s[0]) then [x] + s
    else [s[0]] + Insert(x, s[1..], key)
  }

  function Sort<T>(s: seq<T>, key: T -> real): (r: seq<T>)
    ensures |r| == |s|
  {
    if s == [] then [] else Insert(s[0], Sort(s[1..], key), key)
  }

  ghost predicate Ascending<T>(s: seq<T>, key: T -> real) {
    forall i, j | 0 <= i < j < |s| :: key(s[i]) <= key(s[j])
  }

  lemma {:induction false} InsertMembers<T>(x: T, s: seq<T>, key: T -> real)
    ensures forall y :: y in Insert(x, s, key) <==> y == x || y in s
  {
    if s != [] && key(x) > key(s[0]) {
      InsertMembers(x, s[1..], key);
      assert forall y :: y in s <==> y == s[0] || y in s[1..];
    }
  }

  lemma {:induction false} SortMembers<T>(s: seq<T>, key: T -> real)
    ensures forall y :: y in Sort(s, key) <==> y in s
  {
    if s != [] {
      SortMembers(s[1..], key);
      InsertMembers(s[0], Sort(s[1..], key), key);
      assert forall y :: y in s <==> y == s[0] || y in s[1..];
    }
  }

  lemma {:induction false} InsertAbove<T>(x: T, s: seq<T>, key: T -> real, low: real)
    requires low <= key(x) && forall i | 0 <= i < |s| :: low <= key(s[i])
    ensures forall i | 0 <= i < |s| + 1 :: low <= key(Insert(x, s, key)[i])
  {
    if s != [] && key(x) > key(s[0]) {
      InsertAbove(x, s[1..], key, low);
    }
  }

  lemma {:induction false} InsertAscends<T>(x: T, s: seq<T>, key: T -> real)
    requires Ascending(s, key)
    ensures Ascending(Insert(x, s, key), key)
  {
    if s != [] && key(x) > key(s[0]) {
      InsertAscends(x, s[1..], key);
      InsertAbove(x, s[1..], key, key(s[0]));
    }
  }

  lemma {:induction false} SortAscends<T>(s: seq<T>, key: T -> real)
    ensures Ascending(Sort(s, key), key)
  {
    if s != [] {
      SortAscends(s[1..], key);
      InsertAscends(s[0], Sort(s[1..], key), key);
    }
  }

  /** `[x for x in s if keep(x)]` */
  function Filter<T>(s: seq<T>, keep: T -> bool): (r: seq<T>) {
    if s == [] then []
    else if keep(s[0]) then [s[0]] + Filter(s[1..], keep)
    else Filter(s[1..], keep)
  }

  lemma {:induction false} FilterMembers<T>(s: seq<T>, keep: T -> bool)
    ensures forall x | x in Filter(s, keep) :: x in s && keep(x)
    ensures forall x | x in s && keep(x) :: x in Filter(s, keep)
  {
    if s != [] {
      FilterMembers(s[1..], keep);
    }
  }

  lemma {:induction false} FilterInsert<T>(x: T, s: seq<T>, key: T -> real, keep: T -> bool)
    requires Ascending(s, key)
    ensures Filter(Insert(x, s, key), keep) ==
            if keep(x) then Insert(x, Filter(s, keep), key) else Filter(s, keep)
  {
    if s == [] || key(x) <= key(s[0]) {
      var f := Filter(s, keep);
      FilterMembers(s, keep);
      if f != [] {
        assert f[0] in f && f[0] in s;
      }
    } else {
      var y, t := s[0], s[1..];
      FilterInsert(x, t, key, keep);
      var f := Filter(t, keep);
      assert ([y] + f)[1..] == f;
    }
  }

  /** Dropping elements before or after a stable sort is the same. */
  lemma {:induction false} FilterSort<T>(s: seq<T>, key: T -> real, keep: T -> bool)
    ensures Filter(Sort(s, key), keep) == Sort(Filter(s, keep), key)
  {
    if s != [] {
      var x, t := s[0], s[1..];
      FilterSort(t, key, keep);
      SortAscends(t, key);
      FilterInsert(x, Sort(t, key), key, keep);
      var f := Filter(t, keep);
      assert ([x] + f)[1..] == f;
    }
  }
}
