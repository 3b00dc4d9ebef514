/** Stable sorting by a two-level key and prefix truncation, the shape of
    `List.sort(Comparator.comparing…)` followed by `subList(0, k)`. */
module Ordering {

  /** A sort key compared lexicographically: `primary` first, `secondary`
      to break ties (`comparingLong(…).thenComparingDouble(…)`; a
      single-level comparator uses a constant `secondary`). */
  datatype Key = Key(primary: int, secondary: real)

  predicate KeyLe(a: Key, b: Key) {
    a.primary < b.primary || (a.primary == b.primary && a.secondary <= b.secondary)
  }

  /** `KeyLe` is a total order on keys. */
  lemma KeyLeTotalOrder(a: Key, b: Key, c: Key)
    ensures KeyLe(a, a)
    ensures KeyLe(a, b) || KeyLe(b, a)
    ensures KeyLe(a, b) && KeyLe(b, a) ==> a == b
    ensures KeyLe(a, b) && KeyLe(b, c) ==> KeyLe(a, c)
  {
  }

  /** Ascending by key. */
  ghost predicate Sorted<T>(s: seq<T>, key: T -> Key) {
    forall i, j :: 0 <= i < j < |s| ==> KeyLe(key(s[i]), key(s[j]))
  }

  /** The elements of `s` whose key is `k`, in their order in `s`. */
  function Select<T>(s: seq<T>, key: T -> Key, k: Key): (r: seq<T>)
    ensures |r| <= |s|
  {
    if |s| == 0 then []
    else (if key(s[0]) == k then [s[0]] else []) + Select(s[1..], key, k)
  }

  /** `r` is what a stable sort of `s` must produce: ascending, a
      permutation, and elements with equal keys in their original order. */
  ghost predicate IsStableSortOf<T>(r: seq<T>, s: seq<T>, key: T -> Key) {
    && Sorted(r, key)
    && multiset(r) == multiset(s)
    && forall k :: Select(r, key, k) == Select(s, key, k)
  }

  /** Places `x` in front of the first element whose key is not smaller. */
  function Insert<T>(x: T, s: seq<T>, key: T -> Key): (r: seq<T>)
    requires Sorted(s, key)
    ensures Sorted(r, key)
    ensures multiset(r) == multiset(s) + multiset{x}
  {
    if |s| == 0 then [x]
    else if KeyLe(key(x), key(s[0])) then [x] + s
    else
      var rest := Insert(x, s[1..], key);
      assert multiset(s) == multiset{s[0]} + multiset(s[1..]) by {
        assert s == [s[0]] + s[1..];
      }
      forall j | 0 <= j < |rest|
        ensures KeyLe(key(s[0]), key(rest[j]))
      {
        assert rest[j] in multiset(rest);
        if rest[j] != x {
          assert rest[j] in multiset(s[1..]);
          var i :| 0 <= i < |s[1..]| && s[1..][i] == rest[j];
          assert s[i + 1] == rest[j];
        }
      }
      [s[0]] + rest
  }

  /** Insertion sort; `Insert` keeps earlier elements ahead of later ones
      with the same key, so the sort is stable. */
  function SortBy<T>(s: seq<T>, key: T -> Key): (r: seq<T>)
    ensures Sorted(r, key)
    ensures multiset(r) == multiset(s)
  {
    if |s| == 0 then []
    else
      assert s == [s[0]] + s[1..];
      Insert(s[0], SortBy(s[1..], key), key)
  }

  /** `if (size <= n) return list; else return list.subList(0, n)`. */
  function Take<T>(s: seq<T>, n: nat): (r: seq<T>)
    ensures |r| == if |s| <= n then |s| else n
    ensures r == s[..|r|]
  {
    if |s| <= n then s else s[..n]
  }

  lemma {:induction false} SelectAppend<T>(a: seq<T>, b: seq<T>, key: T -> Key, k: Key)
    ensures Select(a + b, key, k) == Select(a, key, k) + Select(b, key, k)
  {
    if |a| == 0 {
      assert a + b == b;
    } else {
      assert (a + b)[0] == a[0];
      assert (a + b)[1..] == a[1..] + b;
      SelectAppend(a[1..], b, key, k);
    }
  }

  /** The key class of a single element. */
  lemma SelectSingleton<T>(x: T, key: T -> Key, k: Key)
    ensures Select([x], key, k) == if key(x) == k then [x] else []
  {
    assert [x][1..] == [];
  }

  /** Inserting `x` adds it to its own key class in front of the class's
      other members and leaves every other class alone. */
  lemma {:induction false} SelectInsert<T>(x: T, s: seq<T>, key: T -> Key, k: Key)
    requires Sorted(s, key)
    ensures Select(Insert(x, s, key), key, k)
            == (if key(x) == k then [x] else []) + Select(s, key, k)
  {
    if |s| == 0 {
      SelectSingleton(x, key, k);
    } else if KeyLe(key(x), key(s[0])) {
      SelectAppend([x], s, key, k);
      SelectSingleton(x, key, k);
    } else {
      var rest := Insert(x, s[1..], key);
      assert Insert(x, s, key) == [s[0]] + rest;
      SelectAppend([s[0]], rest, key, k);
      SelectSingleton(s[0], key, k);
      SelectInsert(x, s[1..], key, k);
      assert s == [s[0]] + s[1..];
      SelectAppend([s[0]], s[1..], key, k);
      var mine := if key(x) == k then [x] else [];
      var first := if key(s[0]) == k then [s[0]] else [];
      assert key(x) != key(s[0]);
      SwapDisjointClasses(mine, first, Select(s[1..], key, k));
    }
  }

  /** When at most one of two key classes is non-empty, their order does
      not matter. */
  lemma SwapDisjointClasses<T>(a: seq<T>, b: seq<T>, c: seq<T>)
    requires a == [] || b == []
    ensures b + (a + c) == a + (b + c)
  {
    if a == [] {
      assert b + ([] + c) == [] + (b + c);
    } else {
      assert [] + (a + c) == a + ([] + c);
    }
  }

  /** `SortBy` is stable: it never reorders elements with equal keys. */
  lemma {:induction false} SortByStable<T>(s: seq<T>, key: T -> Key, k: Key)
    ensures Select(SortBy(s, key), key, k) == Select(s, key, k)
  {
    if |s| > 0 {
      SortByStable(s[1..], key, k);
      SelectInsert(s[0], SortBy(s[1..], key), key, k);
    }
  }

  /** `SortBy` meets the specification of a stable sort. */
  lemma SortByIsStableSort<T>(s: seq<T>, key: T -> Key)
    ensures IsStableSortOf(SortBy(s, key), s, key)
  {
    forall k
      ensures Select(SortBy(s, key), key, k) == Select(s, key, k)
    {
      SortByStable(s, key, k);
    }
  }

  /** Every element of `Select(s, key, k)` is in `s` and has key `k`. */
  lemma SelectMembers<T>(s: seq<T>, key: T -> Key, k: Key, x: T)
    ensures x in Select(s, key, k) <==> x in s && key(x) == k
  {
    if |s| > 0 {
      assert s == [s[0]] + s[1..];
      SelectMembers(s[1..], key, k, x);
    }
  }

  /** Two sorted arrangements of the same elements that agree on the order
      within every key class are the same sequence. */
  lemma {:induction false} StableArrangementUnique<T>(t: seq<T>, r: seq<T>, key: T -> Key)
    requires Sorted(t, key) && Sorted(r, key)
    requires multiset(t) == multiset(r)
    requires forall k :: Select(t, key, k) == Select(r, key, k)
    ensures t == r
    decreases |t|
  {
    if |t| == 0 {
      assert |multiset(r)| == 0;
    } else {
      SameHead(t, r, key);
      TailSelectsAgree(t, r, key);
      TailMultisetsAgree(t, r);
      StableArrangementUnique(t[1..], r[1..], key);
      assert t == [t[0]] + t[1..];
      assert r == [r[0]] + r[1..];
    }
  }

  /** The smallest key of a sorted sequence is its first element's. */
  lemma HeadKeyIsLeast<T>(t: seq<T>, key: T -> Key, x: T)
    requires Sorted(t, key) && x in t
    ensures |t| > 0 && KeyLe(key(t[0]), key(x))
  {
    var j :| 0 <= j < |t| && t[j] == x;
    if j > 0 { assert KeyLe(key(t[0]), key(t[j])); }
  }

  /** Two such arrangements start with the same element: the heads have the
      same key, and the key class of that key starts with each head. */
  lemma SameHead<T>(t: seq<T>, r: seq<T>, key: T -> Key)
    requires |t| > 0 && Sorted(t, key) && Sorted(r, key)
    requires multiset(t) == multiset(r)
    requires forall k :: Select(t, key, k) == Select(r, key, k)
    ensures |r| > 0 && t[0] == r[0]
  {
    assert t[0] in multiset(r);
    HeadKeyIsLeast(r, key, t[0]);
    assert r[0] in multiset(t);
    HeadKeyIsLeast(t, key, r[0]);
    var m := key(t[0]);
    assert key(r[0]) == m;
    assert Select(t, key, m) == [t[0]] + Select(t[1..], key, m);
    assert Select(r, key, m) == [r[0]] + Select(r[1..], key, m);
    assert Select(t, key, m)[0] == Select(r, key, m)[0];
  }

  /** Dropping a common head keeps every key class in agreement. */
  lemma TailSelectsAgree<T>(t: seq<T>, r: seq<T>, key: T -> Key)
    requires |t| > 0 && |r| > 0 && t[0] == r[0]
    requires forall k :: Select(t, key, k) == Select(r, key, k)
    ensures forall k :: Select(t[1..], key, k) == Select(r[1..], key, k)
  {
    forall k
      ensures Select(t[1..], key, k) == Select(r[1..], key, k)
    {
      var head := if key(t[0]) == k then [t[0]] else [];
      assert Select(t, key, k) == head + Select(t[1..], key, k);
      assert Select(r, key, k) == head + Select(r[1..], key, k);
      assert (head + Select(t[1..], key, k))[|head|..] == Select(t[1..], key, k);
      assert (head + Select(r[1..], key, k))[|head|..] == Select(r[1..], key, k);
    }
  }

  /** Dropping a common head keeps the multisets equal. */
  lemma TailMultisetsAgree<T>(t: seq<T>, r: seq<T>)
    requires |t| > 0 && |r| > 0 && t[0] == r[0]
    requires multiset(t) == multiset(r)
    ensures multiset(t[1..]) == multiset(r[1..])
  {
    assert t == [t[0]] + t[1..];
    assert r == [t[0]] + r[1..];
    assert multiset(t) == multiset{t[0]} + multiset(t[1..]);
    assert multiset(r) == multiset{t[0]} + multiset(r[1..]);
    assert multiset(t[1..]) == multiset(t) - multiset{t[0]};
    assert multiset(r[1..]) == multiset(r) - multiset{t[0]};
  }

  /** The stable sort of a sequence is unique, and `SortBy` computes it:
      anything meeting the stable-sort specification equals `SortBy`. */
  lemma StableSortIsSortBy<T>(r: seq<T>, s: seq<T>, key: T -> Key)
    requires IsStableSortOf(r, s, key)
    ensures r == SortBy(s, key)
  {
    SortByIsStableSort(s, key);
    StableArrangementUnique(r, SortBy(s, key), key);
  }

  /** Truncation only drops elements. */
  lemma TakeSubMultiset<T>(s: seq<T>, n: nat)
    ensures multiset(Take(s, n)) <= multiset(s)
  {
    var r := Take(s, n);
    assert s == r + s[|r|..];
    assert multiset(s) == multiset(r) + multiset(s[|r|..]);
  }

  /** A prefix of a sorted sequence is sorted. */
  lemma PrefixSorted<T>(s: seq<T>, n: nat, key: T -> Key)
    requires Sorted(s, key) && n <= |s|
    ensures Sorted(s[..n], key)
  {
  }

  /** No two positions of `s` share a value of `f`. */
  ghost predicate DistinctBy<T, U>(s: seq<T>, f: T -> U) {
    forall i, j :: 0 <= i < j < |s| ==> f(s[i]) != f(s[j])
  }

  /** Putting a new `f`-value in front keeps the values distinct. */
  lemma ConsDistinct<T, U>(h: T, rest: seq<T>, f: T -> U)
    requires DistinctBy(rest, f)
    requires forall j :: 0 <= j < |rest| ==> f(rest[j]) != f(h)
    ensures DistinctBy([h] + rest, f)
  {
    var r := [h] + rest;
    forall i, j | 0 <= i < j < |r|
      ensures f(r[i]) != f(r[j])
    {
      assert r[j] == rest[j - 1];
      if i > 0 {
        assert r[i] == rest[i - 1];
      }
    }
  }

  /** Inserting an element whose `f`-value is new keeps the values distinct. */
  lemma {:induction false} InsertKeepsDistinct<T, U>(x: T, s: seq<T>, key: T -> Key, f: T -> U)
    requires Sorted(s, key) && DistinctBy(s, f)
    requires forall i :: 0 <= i < |s| ==> f(s[i]) != f(x)
    ensures DistinctBy(Insert(x, s, key), f)
  {
    if |s| == 0 || KeyLe(key(x), key(s[0])) {
      assert Insert(x, s, key) == [x] + s;
      ConsDistinct(x, s, f);
    } else {
      var rest := Insert(x, s[1..], key);
      assert Insert(x, s, key) == [s[0]] + rest;
      DistinctTail(s, f);
      InsertKeepsDistinct(x, s[1..], key, f);
      InsertedHeadIsNew(x, s, rest, key, f);
      ConsDistinct(s[0], rest, f);
    }
  }

  lemma DistinctTail<T, U>(s: seq<T>, f: T -> U)
    requires |s| > 0 && DistinctBy(s, f)
    ensures DistinctBy(s[1..], f)
  {
    forall i, j | 0 <= i < j < |s[1..]|
      ensures f(s[1..][i]) != f(s[1..][j])
    {
      assert s[1..][i] == s[i + 1] && s[1..][j] == s[j + 1];
    }
  }

  /** The head of `s` differs in `f` from everything `Insert(x, s[1..])` holds. */
  lemma InsertedHeadIsNew<T, U>(x: T, s: seq<T>, rest: seq<T>, key: T -> Key, f: T -> U)
    requires |s| > 0 && Sorted(s, key) && DistinctBy(s, f)
    requires forall i :: 0 <= i < |s| ==> f(s[i]) != f(x)
    requires rest == Insert(x, s[1..], key)
    ensures forall j :: 0 <= j < |rest| ==> f(rest[j]) != f(s[0])
  {
    forall j | 0 <= j < |rest|
      ensures f(rest[j]) != f(s[0])
    {
      assert rest[j] in multiset(rest);
      if rest[j] != x {
        assert rest[j] in multiset(s[1..]);
        var i :| 0 <= i < |s[1..]| && s[1..][i] == rest[j];
        assert s[i + 1] == rest[j];
      }
    }
  }

  /** Sorting keeps `f`-values distinct. */
  lemma {:induction false} SortByKeepsDistinct<T, U>(s: seq<T>, key: T -> Key, f: T -> U)
    requires DistinctBy(s, f)
    ensures DistinctBy(SortBy(s, key), f)
  {
    if |s| > 0 {
      var tail := SortBy(s[1..], key);
      DistinctTail(s, f);
      SortByKeepsDistinct(s[1..], key, f);
      forall i | 0 <= i < |tail|
        ensures f(tail[i]) != f(s[0])
      {
        assert tail[i] in multiset(s[1..]);
        var k :| 0 <= k < |s[1..]| && s[1..][k] == tail[i];
        assert s[k + 1] == tail[i];
      }
      InsertKeepsDistinct(s[0], tail, key, f);
    }
  }
}
