/** Generic sequence operations used by the read-side projections: a stable sort on a
    two-part key, counting, filtering, and picking the most recent element. */
module Seqs {
  import opened Common

  /** A lexicographic sort key, like the Python tuple `(major, minor)`. */
  datatype Key = Key(major: int, minor: int)

  /** Tuple comparison `a <= b` on keys. */
  predicate KeyLe(a: Key, b: Key) {
    a.major < b.major || (a.major == b.major && a.minor <= b.minor)
  }

  predicate SortedBy<T>(s: seq<T>, key: T -> Key) {
    forall i, j :: 0 <= i < j < |s| ==> KeyLe(key(s[i]), key(s[j]))
  }

  /** Places `x` in front of the first element whose key is not smaller, so an element
      inserted later lands before equal-keyed ones inserted earlier. */
  function Insert<T>(x: T, s: seq<T>, key: T -> Key): (r: seq<T>)
    requires SortedBy(s, key)
    ensures SortedBy(r, key)
    ensures multiset(r) == multiset(s) + multiset{x}
    ensures |r| == |s| + 1
    ensures forall k :: 0 <= k < |r| ==> r[k] == x || r[k] in s
    decreases |s|
  {
    if |s| == 0 || KeyLe(key(x), key(s[0])) then
      [x] + s
    else
      var rest := Insert(x, s[1..], key);
      assert forall k :: 0 <= k < |rest| ==> KeyLe(key(s[0]), key(rest[k])) by {
        forall k | 0 <= k < |rest|
          ensures KeyLe(key(s[0]), key(rest[k]))
        {
          if rest[k] != x {
            var j :| 0 <= j < |s[1..]| && s[1..][j] == rest[k];
            assert s[1 + j] == rest[k];
          }
        }
      }
      assert s == [s[0]] + s[1..];
      [s[0]] + rest
  }

  /** Python's `sorted(s, key=key)`: an insertion sort, stable like Python's. */
  function SortBy<T>(s: seq<T>, key: T -> Key): (r: seq<T>)
    ensures SortedBy(r, key)
    ensures multiset(r) == multiset(s)
    ensures |r| == |s|
    decreases |s|
  {
    if |s| == 0 then []
    else
      assert s == [s[0]] + s[1..];
      Insert(s[0], SortBy(s[1..], key), key)
  }

  /** Keys are pairwise distinct on the elements of `s`. */
  predicate DistinctKeys<T>(s: seq<T>, key: T -> Key) {
    forall i, j :: 0 <= i < j < |s| ==> key(s[i]) != key(s[j])
  }

  lemma SortedTail<T>(s: seq<T>, key: T -> Key)
    requires |s| > 0 && SortedBy(s, key) && DistinctKeys(s, key)
    ensures SortedBy(s[1..], key) && DistinctKeys(s[1..], key)
  {
    forall i, j | 0 <= i < j < |s[1..]|
      ensures KeyLe(key(s[1..][i]), key(s[1..][j])) && key(s[1..][i]) != key(s[1..][j])
    {
      assert s[1..][i] == s[i + 1] && s[1..][j] == s[j + 1];
    }
  }

  /** Two key-sorted arrangements of one multiset start with the same element when keys
      are distinct. */
  lemma SortedHeads<T>(r1: seq<T>, r2: seq<T>, key: T -> Key)
    requires |r1| > 0 && |r2| > 0
    requires SortedBy(r1, key) && SortedBy(r2, key)
    requires multiset(r1) == multiset(r2)
    requires DistinctKeys(r1, key)
    ensures r1[0] == r2[0]
  {
    var x, y := r1[0], r2[0];
    assert y in multiset(r1) by { assert y in multiset(r2); }
    var j :| 0 <= j < |r1| && r1[j] == y;
    assert x in multiset(r2) by { assert x in multiset(r1); }
    var k :| 0 <= k < |r2| && r2[k] == x;
  }

  /** With distinct keys there is exactly one key-sorted arrangement of a multiset. */
  lemma {:induction false} SortedUnique<T>(r1: seq<T>, r2: seq<T>, key: T -> Key)
    requires SortedBy(r1, key) && SortedBy(r2, key)
    requires multiset(r1) == multiset(r2)
    requires DistinctKeys(r1, key)
    ensures r1 == r2
    decreases |r1|
  {
    assert |r1| == |multiset(r1)| == |multiset(r2)| == |r2|;
    if |r1| > 0 {
      SortedHeads(r1, r2, key);
      var x := r1[0];
      var t1, t2 := r1[1..], r2[1..];
      assert r1 == [x] + t1;
      assert r2 == [x] + t2;
      assert multiset(t1) == multiset(t2) by {
        assert multiset(r1) == multiset([x]) + multiset(t1);
        assert multiset(r2) == multiset([x]) + multiset(t2);
        assert multiset(t1) == multiset(r1) - multiset([x]);
        assert multiset(t2) == multiset(r2) - multiset([x]);
      }
      SortedTail(r1, key);
      assert SortedBy(t2, key) by {
        forall i, j | 0 <= i < j < |t2| ensures KeyLe(key(t2[i]), key(t2[j])) {
          assert t2[i] == r2[i + 1] && t2[j] == r2[j + 1];
        }
      }
      SortedUnique(t1, t2, key);
    }
  }

  /** `SortBy` is the only key-sorted arrangement when keys are distinct. */
  lemma SortByIsUnique<T>(s: seq<T>, r: seq<T>, key: T -> Key)
    requires SortedBy(r, key) && multiset(r) == multiset(s)
    requires DistinctKeys(r, key)
    ensures SortBy(s, key) == r
  {
    SortedUnique(r, SortBy(s, key), key);
  }

  /** A permutation has the same members. */
  lemma SameMembers<T>(a: seq<T>, b: seq<T>)
    requires multiset(a) == multiset(b)
    ensures forall k :: 0 <= k < |a| ==> a[k] in b
    ensures forall k :: 0 <= k < |b| ==> b[k] in a
  {
    forall k | 0 <= k < |a| ensures a[k] in b {
      assert a[k] in multiset(a);
    }
    forall k | 0 <= k < |b| ensures b[k] in a {
      assert b[k] in multiset(b);
    }
  }

  /** Number of elements satisfying `p`. */
  function Count<T>(s: seq<T>, p: T -> bool): (n: nat)
    ensures n <= |s|
    decreases |s|
  {
    if |s| == 0 then 0 else (if p(s[0]) then 1 else 0) + Count(s[1..], p)
  }

  /** The elements satisfying `p`, in their original order. */
  function Filter<T>(s: seq<T>, p: T -> bool): (r: seq<T>)
    ensures |r| == Count(s, p)
    ensures forall i :: 0 <= i < |r| ==> r[i] in s && p(r[i])
    ensures forall i :: 0 <= i < |s| && p(s[i]) ==> s[i] in r
    ensures multiset(r) <= multiset(s)
    decreases |s|
  {
    if |s| == 0 then []
    else
      assert s == [s[0]] + s[1..];
      (if p(s[0]) then [s[0]] else []) + Filter(s[1..], p)
  }

  /**
    * Filtering keeps the original order: it distributes over concatenation,
    * so the survivors of `a` all come before the survivors of `b`.
    */
  lemma {:induction false} FilterConcat<T>(a: seq<T>, b: seq<T>, p: T -> bool)
    ensures Filter(a + b, p) == Filter(a, p) + Filter(b, p)
    decreases |a|
  {
    if |a| == 0 {
      assert a + b == b;
    } else {
      assert (a + b)[0] == a[0];
      assert (a + b)[1..] == a[1..] + b;
      FilterConcat(a[1..], b, p);
    }
  }

  /** A one-element sequence survives exactly when its element satisfies `p`. */
  lemma FilterSingleton<T>(x: T, p: T -> bool)
    ensures Filter([x], p) == (if p(x) then [x] else [])
  {
    assert [x][1..] == [];
  }

  /** Filtering by a predicate every element satisfies keeps the whole sequence. */
  lemma {:induction false} FilterKeepsAll<T>(s: seq<T>, p: T -> bool)
    requires forall i :: 0 <= i < |s| ==> p(s[i])
    ensures Filter(s, p) == s
    decreases |s|
  {
    if |s| > 0 {
      assert p(s[0]);
      FilterKeepsAll(s[1..], p);
      assert s == [s[0]] + s[1..];
    }
  }

  /** Python's `s[:n]`. */
  function Take<T>(s: seq<T>, n: nat): (r: seq<T>)
    ensures |r| == (if n < |s| then n else |s|)
    ensures forall i :: 0 <= i < |r| ==> r[i] == s[i]
  {
    if n < |s| then s[..n] else s
  }

  /** The element kept by `keep` with the greatest `time`; among equal times the one
      nearest the front. `None` when `keep` holds of no element. */
  function Latest<T>(s: seq<T>, keep: T -> bool, time: T -> int): (r: Option<T>)
    ensures r.None? <==> forall i :: 0 <= i < |s| ==> !keep(s[i])
    ensures r.Some? ==> r.value in s && keep(r.value)
    ensures r.Some? ==> forall i :: 0 <= i < |s| && keep(s[i]) ==> time(s[i]) <= time(r.value)
    decreases |s|
  {
    if |s| == 0 then None
    else
      var rest := Latest(s[1..], keep, time);
      assert forall i :: 1 <= i < |s| ==> s[i] == s[1..][i - 1];
      if !keep(s[0]) then rest
      else if rest.Some? && time(rest.value) > time(s[0]) then rest
      else Some(s[0])
  }

  /** Inserting one element adds one to the count exactly when the element satisfies `p`. */
  lemma {:induction false} CountInsert<T>(x: T, s: seq<T>, key: T -> Key, p: T -> bool)
    requires SortedBy(s, key)
    ensures Count(Insert(x, s, key), p) == Count(s, p) + (if p(x) then 1 else 0)
    decreases |s|
  {
    if |s| == 0 || KeyLe(key(x), key(s[0])) {
      assert ([x] + s)[1..] == s;
    } else {
      CountInsert(x, s[1..], key, p);
      var r := Insert(x, s, key);
      assert r[1..] == Insert(x, s[1..], key);
    }
  }

  /** Sorting does not change how many elements satisfy `p`. */
  lemma {:induction false} CountSortBy<T>(s: seq<T>, key: T -> Key, p: T -> bool)
    ensures Count(SortBy(s, key), p) == Count(s, p)
    decreases |s|
  {
    if |s| > 0 {
      CountSortBy(s[1..], key, p);
      CountInsert(s[0], SortBy(s[1..], key), key, p);
    }
  }

  /** Every element satisfying `p` comes before every element that does not. */
  predicate FrontLoaded<T>(s: seq<T>, p: T -> bool) {
    forall i, j :: 0 <= i < j < |s| && p(s[j]) ==> p(s[i])
  }

  /** In a front-loaded sequence the elements satisfying `p` are exactly the first
      `Count(s, p)` ones. */
  lemma {:induction false} FrontLoadedPrefix<T>(s: seq<T>, p: T -> bool)
    requires FrontLoaded(s, p)
    ensures forall i :: 0 <= i < |s| ==> (p(s[i]) <==> i < Count(s, p))
    decreases |s|
  {
    if |s| > 0 {
      var t := s[1..];
      assert forall i :: 0 <= i < |t| ==> t[i] == s[i + 1];
      assert FrontLoaded(t, p);
      FrontLoadedPrefix(t, p);
      if !p(s[0]) {
        assert forall j :: 0 <= j < |t| ==> !p(t[j]);
      }
      forall i | 0 <= i < |s|
        ensures p(s[i]) <==> i < Count(s, p)
      {
        if i > 0 {
          assert s[i] == t[i - 1];
        }
      }
    }
  }
}
