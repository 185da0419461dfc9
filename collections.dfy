/** Order-preserving filtering, and a stable insertion sort over a total
    preorder. They stand for `Array.prototype.filter`/a database `where`,
    and for `Array.prototype.sort` with a comparator (stable since ES2019)/a
    database `orderBy`. */
module Collections {
  import opened Wrappers

  /** The indices, below `n`, of the elements of `s` that satisfy `keep`, in order. */
  function KeptIndices<T>(s: seq<T>, keep: T -> bool, n: nat): (ks: seq<nat>)
    requires n <= |s|
    ensures |ks| <= n
    ensures forall a, b :: 0 <= a < b < |ks| ==> ks[a] < ks[b]
    ensures forall a :: 0 <= a < |ks| ==> ks[a] < n && keep(s[ks[a]])
    ensures forall i :: 0 <= i < n && keep(s[i]) ==> i in ks
  {
    if n == 0 then []
    else if keep(s[n - 1]) then KeptIndices(s, keep, n - 1) + [n - 1]
    else KeptIndices(s, keep, n - 1)
  }

  /** The elements of `s` that satisfy `keep`, in their order in `s`. */
  function Filter<T(!new)>(s: seq<T>, keep: T -> bool): (r: seq<T>)
    ensures var ks := KeptIndices(s, keep, |s|);
      |r| == |ks| && forall k :: 0 <= k < |r| ==> r[k] == s[ks[k]]
    ensures forall x :: x in r <==> x in s && keep(x)
  {
    FilterUpTo(s, keep, |s|)
  }

  function FilterUpTo<T(!new)>(s: seq<T>, keep: T -> bool, n: nat): (r: seq<T>)
    requires n <= |s|
    ensures var ks := KeptIndices(s, keep, n);
      |r| == |ks| && forall k :: 0 <= k < |r| ==> r[k] == s[ks[k]]
    ensures forall x :: x in r <==> x in s[..n] && keep(x)
  {
    if n == 0 then []
    else
      assert s[..n] == s[..n - 1] + [s[n - 1]];
      if keep(s[n - 1]) then FilterUpTo(s, keep, n - 1) + [s[n - 1]]
      else FilterUpTo(s, keep, n - 1)
  }

  /** Filtering depends only on the elements looked at. */
  lemma {:induction false} FilterUpToSamePrefix<T(!new)>(s: seq<T>, t: seq<T>, keep: T -> bool, n: nat)
    requires n <= |s| && n <= |t| && s[..n] == t[..n]
    ensures FilterUpTo(s, keep, n) == FilterUpTo(t, keep, n)
  {
    if n > 0 {
      assert s[n - 1] == s[..n][n - 1] == t[..n][n - 1] == t[n - 1];
      assert s[..n - 1] == s[..n][..n - 1] == t[..n][..n - 1] == t[..n - 1];
      FilterUpToSamePrefix(s, t, keep, n - 1);
    }
  }

  /** Filtering a sequence extended by one element. */
  lemma FilterAppendOne<T(!new)>(s: seq<T>, x: T, keep: T -> bool)
    ensures Filter(s + [x], keep) == Filter(s, keep) + (if keep(x) then [x] else [])
  {
    var t := s + [x];
    assert t[..|s|] == s[..|s|];
    FilterUpToSamePrefix(t, s, keep, |s|);
  }

  /** `Array.prototype.findIndex`: the first index whose element satisfies `p`. */
  function FindFirst<T>(s: seq<T>, p: T -> bool, from: nat): (r: Option<nat>)
    requires from <= |s|
    decreases |s| - from
    ensures r.Some? ==>
      && from <= r.value < |s| && p(s[r.value])
      && forall j :: from <= j < r.value ==> !p(s[j])
    ensures r.None? <==> forall j :: from <= j < |s| ==> !p(s[j])
  {
    if from == |s| then None
    else if p(s[from]) then Some(from)
    else FindFirst(s, p, from + 1)
  }

  /** `le` is total and transitive: a comparator that sorts consistently. */
  ghost predicate TotalPreorder<T(!new)>(le: (T, T) -> bool) {
    && (forall a, b :: le(a, b) || le(b, a))
    && (forall a, b, c :: le(a, b) && le(b, c) ==> le(a, c))
  }

  ghost predicate SortedBy<T>(s: seq<T>, le: (T, T) -> bool) {
    forall i, j :: 0 <= i < j < |s| ==> le(s[i], s[j])
  }

  /** `x` placed before the first element it may precede. */
  function Insert<T(!new)>(x: T, s: seq<T>, le: (T, T) -> bool): (r: seq<T>)
    requires TotalPreorder(le) && SortedBy(s, le)
    ensures multiset(r) == multiset(s) + multiset{x}
    ensures SortedBy(r, le)
  {
    if s == [] || le(x, s[0]) then
      assert forall j :: 0 <= j < |s| ==> le(x, s[j]);
      ConsSorted(x, s, le);
      [x] + s
    else
      var rest := Insert(x, s[1..], le);
      assert s == [s[0]] + s[1..];
      HeadPrecedesAll(s[0], x, s[1..], rest, le);
      ConsSorted(s[0], rest, le);
      [s[0]] + rest
  }

  lemma ConsSorted<T>(h: T, t: seq<T>, le: (T, T) -> bool)
    requires SortedBy(t, le)
    requires forall j :: 0 <= j < |t| ==> le(h, t[j])
    ensures SortedBy([h] + t, le)
  {
    var r := [h] + t;
    forall i, j | 0 <= i < j < |r| ensures le(r[i], r[j]) {
      if i > 0 {
        assert r[i] == t[i - 1] && r[j] == t[j - 1];
      } else {
        assert r[j] == t[j - 1];
      }
    }
  }

  /** The head of a sorted list precedes every element of the list it heads
      with `x` inserted, when it also precedes `x`. */
  lemma HeadPrecedesAll<T(!new)>(h: T, x: T, tail: seq<T>, rest: seq<T>, le: (T, T) -> bool)
    requires TotalPreorder(le)
    requires le(h, x)
    requires forall j :: 0 <= j < |tail| ==> le(h, tail[j])
    requires multiset(rest) == multiset(tail) + multiset{x}
    ensures forall j :: 0 <= j < |rest| ==> le(h, rest[j])
  {
    forall j | 0 <= j < |rest| ensures le(h, rest[j]) {
      assert rest[j] in multiset(rest);
      if rest[j] != x {
        assert rest[j] in multiset(tail);
        var k :| 0 <= k < |tail| && tail[k] == rest[j];
      }
    }
  }

  /** The sorted copy: a permutation of `s`, ordered by `le`. */
  function Sort<T(!new)>(s: seq<T>, le: (T, T) -> bool): (r: seq<T>)
    requires TotalPreorder(le)
    ensures multiset(r) == multiset(s)
    ensures |r| == |s|
    ensures SortedBy(r, le)
  {
    if s == [] then []
    else
      assert s == [s[0]] + s[1..];
      Insert(s[0], Sort(s[1..], le), le)
  }

  /** A `where` followed by an `orderBy`: exactly the kept elements, each as
      often as in the filtered sequence, ordered by `le`. */
  function SortedFilter<T(!new)>(s: seq<T>, keep: T -> bool, le: (T, T) -> bool): (r: seq<T>)
    requires TotalPreorder(le)
    ensures forall x :: x in r <==> x in s && keep(x)
    ensures multiset(r) == multiset(Filter(s, keep))
    ensures SortedBy(r, le)
  {
    var f := Filter(s, keep);
    var r := Sort(f, le);
    SameMembers(r, f);
    r
  }

  /** Sequences with the same multiset have the same members. */
  lemma SameMembers<T>(a: seq<T>, b: seq<T>)
    requires multiset(a) == multiset(b)
    ensures forall x :: x in a <==> x in b
  {
    forall x ensures x in a <==> x in b {
      assert x in a <==> x in multiset(a);
      assert x in b <==> x in multiset(b);
    }
  }
}
