/** SQL `ORDER BY`, modelled as a stable insertion sort under a caller-supplied ordering.
    The engine's own ordering (collation of text, comparison of timestamps) is abstract:
    all the model relies on is that it is total and transitive. */
module Query {

  /** Every two values are comparable. */
  ghost predicate Total<T(!new)>(le: (T, T) -> bool) {
    forall x, y :: le(x, y) || le(y, x)
  }

  ghost predicate Transitive<T(!new)>(le: (T, T) -> bool) {
    forall x, y, z :: le(x, y) && le(y, z) ==> le(x, z)
  }

  /** `le` is an ordering an `ORDER BY` clause can use. */
  ghost predicate Ordering<T(!new)>(le: (T, T) -> bool) {
    Total(le) && Transitive(le)
  }

  ghost predicate SortedBy<T>(s: seq<T>, le: (T, T) -> bool) {
    forall i, j :: 0 <= i < j < |s| ==> le(s[i], s[j])
  }

  /** Places `x` in front of the first element it precedes. */
  function Insert<T(!new)>(x: T, s: seq<T>, le: (T, T) -> bool): (r: seq<T>)
    requires Ordering(le) && SortedBy(s, le)
    ensures SortedBy(r, le)
    ensures multiset(r) == multiset(s) + multiset{x}
  {
    if s == [] then [x]
    else if le(x, s[0]) then
      [x] + s
    else
      assert s == [s[0]] + s[1..];
      var rest := Insert(x, s[1..], le);
      HeadPrecedes(s[0], x, s[1..], rest, le);
      SortedCons(s[0], rest, le);
      [s[0]] + rest
  }

  /** The head of a sorted list precedes whatever `x` it does not follow, so it precedes
      every element of the list with `x` inserted into its tail. */
  lemma HeadPrecedes<T(!new)>(a: T, x: T, tail: seq<T>, rest: seq<T>, le: (T, T) -> bool)
    requires Ordering(le) && SortedBy([a] + tail, le) && !le(x, a)
    requires multiset(rest) == multiset(tail) + multiset{x}
    ensures forall k :: 0 <= k < |rest| ==> le(a, rest[k])
  {
    forall k | 0 <= k < |rest|
      ensures le(a, rest[k])
    {
      assert rest[k] in multiset(rest);
      if rest[k] == x {
        assert le(x, a) || le(a, x);
      } else {
        assert multiset(tail)[rest[k]] == multiset(rest)[rest[k]] > 0;
        assert rest[k] in tail;
        var j :| 0 <= j < |tail| && tail[j] == rest[k];
        assert ([a] + tail)[0] == a && ([a] + tail)[j + 1] == tail[j];
      }
    }
  }

  /** An element that precedes every element of a sorted list can be put in front of it. */
  lemma SortedCons<T>(a: T, rest: seq<T>, le: (T, T) -> bool)
    requires SortedBy(rest, le) && forall k :: 0 <= k < |rest| ==> le(a, rest[k])
    ensures SortedBy([a] + rest, le)
  {
    var r := [a] + rest;
    forall i, j | 0 <= i < j < |r|
      ensures le(r[i], r[j])
    {
      assert r[j] == rest[j - 1];
      if i > 0 {
        assert r[i] == rest[i - 1];
      }
    }
  }

  /** The rows of `s` in the order `le` prescribes: the rows are the same, with the same
      multiplicities, and every row precedes the ones after it. */
  function OrderBy<T(!new)>(s: seq<T>, le: (T, T) -> bool): (r: seq<T>)
    requires Ordering(le)
    ensures SortedBy(r, le)
    ensures multiset(r) == multiset(s)
  {
    if s == [] then []
    else
      assert s == [s[0]] + s[1..];
      Insert(s[0], OrderBy(s[1..], le), le)
  }
}
