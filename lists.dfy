/** The array idioms the screens use on their lists: `filter`, a numeric
    `reduce`, and the "remove if present, else append" toggle. */
module Lists {

  /** `s.filter(p)`. */
  function Filter<T>(s: seq<T>, p: T -> bool): (r: seq<T>)
    ensures |r| <= |s|
    ensures forall k :: 0 <= k < |r| ==> r[k] in s && p(r[k])
    ensures forall k :: 0 <= k < |s| && p(s[k]) ==> s[k] in r
    decreases |s|
  {
    if s == [] then [] else (if p(s[0]) then [s[0]] else []) + Filter(s[1..], p)
  }

  /** Filtering a concatenation filters each part in place; together with
      FilterKeepsOrMisses this fixes the result as the order-preserving
      subsequence of the elements that satisfy `p`. */
  lemma {:induction false} FilterConcat<T>(a: seq<T>, b: seq<T>, p: T -> bool)
    ensures Filter(a + b, p) == Filter(a, p) + Filter(b, p)
    decreases |a|
  {
    if a != [] {
      assert (a + b)[0] == a[0] && (a + b)[1..] == a[1..] + b;
      FilterConcat(a[1..], b, p);
      assert Filter(a + b, p) == (if p(a[0]) then [a[0]] else []) + Filter(a[1..] + b, p);
    } else {
      assert a + b == b;
    }
  }

  /** On one element, `filter` keeps it exactly when it satisfies `p`. */
  lemma FilterKeepsOrMisses<T>(x: T, p: T -> bool)
    ensures Filter([x], p) == if p(x) then [x] else []
  {
    assert [x][1..] == [];
  }

  /** `filter` is determined element by element, in order: it distributes over
      concatenation and keeps a single element exactly when it passes. */
  lemma FilterSplits<T>(a: seq<T>, b: seq<T>, x: T, p: T -> bool)
    ensures Filter(a + b, p) == Filter(a, p) + Filter(b, p)
    ensures Filter([x], p) == if p(x) then [x] else []
  {
    FilterConcat(a, b, p);
    FilterKeepsOrMisses(x, p);
  }

  /** Filtering twice is filtering once by both tests: `r` holds exactly
      where `p` and then `q` hold. */
  lemma {:induction false} FilterFilter<T>(s: seq<T>, p: T -> bool, q: T -> bool, r: T -> bool)
    requires forall x :: r(x) == (p(x) && q(x))
    ensures Filter(Filter(s, p), q) == Filter(s, r)
    decreases |s|
  {
    if s != [] {
      FilterFilter(s[1..], p, q, r);
      var head := if p(s[0]) then [s[0]] else [];
      assert Filter(s, p) == head + Filter(s[1..], p);
      FilterConcat(head, Filter(s[1..], p), q);
      FilterKeepsOrMisses(s[0], q);
    }
  }

  /** Two tests that agree on every element filter alike. */
  lemma FilterSameTest<T>(s: seq<T>, p: T -> bool, q: T -> bool)
    requires forall x :: p(x) == q(x)
    ensures Filter(s, p) == Filter(s, q)
  {
    FilterFilter(s, p, x => true, q);
    FilterAllPass(Filter(s, p), x => true);
  }

  /** A filter that every element passes returns the list itself. */
  lemma {:induction false} FilterAllPass<T>(s: seq<T>, p: T -> bool)
    requires forall k :: 0 <= k < |s| ==> p(s[k])
    ensures Filter(s, p) == s
    decreases |s|
  {
    if s != [] {
      FilterAllPass(s[1..], p);
    }
  }

  /** A filter that no element passes returns nothing. */
  lemma {:induction false} FilterNonePass<T>(s: seq<T>, p: T -> bool)
    requires forall k :: 0 <= k < |s| ==> !p(s[k])
    ensures Filter(s, p) == []
    decreases |s|
  {
    if s != [] {
      FilterNonePass(s[1..], p);
    }
  }

  /** `s.filter(p).length`. */
  function Count<T>(s: seq<T>, p: T -> bool): nat {
    |Filter(s, p)|
  }

  /** Filtering by a stronger predicate keeps no more elements. */
  lemma {:induction false} CountMonotone<T>(s: seq<T>, p: T -> bool, q: T -> bool)
    requires forall x :: p(x) ==> q(x)
    ensures Count(s, p) <= Count(s, q)
    decreases |s|
  {
    if s != [] {
      CountMonotone(s[1..], p, q);
    }
  }

  /** `s.reduce((sum, x) => sum + f(x), 0)`. */
  function Sum<T>(s: seq<T>, f: T -> int): int
    decreases |s|
  {
    if s == [] then 0 else f(s[0]) + Sum(s[1..], f)
  }

  lemma {:induction false} SumConcat<T>(a: seq<T>, b: seq<T>, f: T -> int)
    ensures Sum(a + b, f) == Sum(a, f) + Sum(b, f)
    decreases |a|
  {
    if a != [] {
      assert (a + b)[0] == a[0] && (a + b)[1..] == a[1..] + b;
      SumConcat(a[1..], b, f);
    } else {
      assert a + b == b;
    }
  }

  /** Summing only the elements that pass a filter gives no more than the whole
      sum when every term is non-negative. */
  lemma {:induction false} SumFilterAtMost<T>(s: seq<T>, p: T -> bool, f: T -> int)
    requires forall k :: 0 <= k < |s| ==> f(s[k]) >= 0
    ensures Sum(Filter(s, p), f) <= Sum(s, f)
    decreases |s|
  {
    if s != [] {
      assert forall k :: 0 <= k < |s[1..]| ==> s[1..][k] == s[k + 1];
      SumFilterAtMost(s[1..], p, f);
      var rest := Filter(s[1..], p);
      if p(s[0]) {
        assert Filter(s, p) == [s[0]] + rest;
        assert ([s[0]] + rest)[0] == s[0] && ([s[0]] + rest)[1..] == rest;
      } else {
        assert Filter(s, p) == rest;
      }
    }
  }

  /** No element occurs twice. */
  predicate NoDuplicates<T(==)>(s: seq<T>) {
    forall i, j :: 0 <= i < j < |s| ==> s[i] != s[j]
  }

  /** `prev.includes(x) ? prev.filter(i => i !== x) : [...prev, x]`. */
  function Toggle<T(==)>(s: seq<T>, x: T): (r: seq<T>)
    ensures x in s ==> x !in r && (forall k :: 0 <= k < |r| ==> r[k] in s)
                       && (forall k :: 0 <= k < |s| && s[k] != x ==> s[k] in r)
    ensures x !in s ==> r == s + [x]
  {
    if x in s then Filter(s, y => y != x) else s + [x]
  }

  /** Toggling keeps a duplicate-free list duplicate-free. */
  lemma {:induction false} ToggleKeepsNoDuplicates<T>(s: seq<T>, x: T)
    requires NoDuplicates(s)
    ensures NoDuplicates(Toggle(s, x))
  {
    if x in s {
      FilterKeepsNoDuplicates(s, y => y != x);
    }
  }

  lemma {:induction false} FilterKeepsNoDuplicates<T>(s: seq<T>, p: T -> bool)
    requires NoDuplicates(s)
    ensures NoDuplicates(Filter(s, p))
    decreases |s|
  {
    if s != [] {
      FilterKeepsNoDuplicates(s[1..], p);
      var rest := Filter(s[1..], p);
      assert s[0] !in s[1..];
      assert s[0] !in rest;
    }
  }

  /** Toggling the same element twice restores the set of elements. */
  lemma ToggleTwiceSameSet<T>(s: seq<T>, x: T, y: T)
    ensures y in Toggle(Toggle(s, x), x) <==> y in s
  {
    var t := Toggle(s, x);
    if y == x {
      if x in s {
        assert Toggle(t, x) == t + [x];
      } else {
        assert x in t;
      }
    } else {
      ToggleIsolated(s, x, y);
      ToggleIsolated(t, x, y);
    }
  }

  /** Toggling `x` never changes whether any other element is present. */
  lemma ToggleIsolated<T>(s: seq<T>, x: T, y: T)
    requires y != x
    ensures y in Toggle(s, x) <==> y in s
  {
  }

  /** ToggleIsolated for every other element at once. */
  lemma ToggleIsolatedAll<T>(s: seq<T>, x: T)
    ensures forall y :: y != x ==> (y in Toggle(s, x) <==> y in s)
  {
  }

  /** The keys of the elements in order of first appearance, as the insertion
      order of an object built by `reduce`. */
  function KeysInOrder<T, K(==)>(s: seq<T>, key: T -> K): (keys: seq<K>)
    ensures NoDuplicates(keys)
    ensures forall j :: 0 <= j < |s| ==> key(s[j]) in keys
    ensures |keys| <= |s|
    decreases |s|
  {
    if s == [] then []
    else
      var front := s[..|s| - 1];
      var keys := KeysInOrder(front, key);
      var c := key(s[|s| - 1]);
      assert forall j :: 0 <= j < |front| ==> front[j] == s[j];
      if c in keys then keys else keys + [c]
  }

  /** Every key listed is the key of some element. */
  lemma {:induction false} KeysInOrderOccur<T, K>(s: seq<T>, key: T -> K, k: int)
    requires 0 <= k < |KeysInOrder(s, key)|
    ensures exists j :: 0 <= j < |s| && key(s[j]) == KeysInOrder(s, key)[k]
    decreases |s|
  {
    var front := s[..|s| - 1];
    var keys := KeysInOrder(front, key);
    if k < |keys| {
      KeysInOrderOccur(front, key, k);
      var j :| 0 <= j < |front| && key(front[j]) == keys[k];
      assert s[j] == front[j];
    } else {
      assert key(s[|s| - 1]) == KeysInOrder(s, key)[k];
    }
  }

  /** The prefix one longer is the prefix and the next element. */
  lemma PrefixExtend<T>(s: seq<T>, i: int)
    requires 0 <= i < |s|
    ensures s[..i + 1] == s[..i] + [s[i]]
  {
  }

  /** Extending a list by one element adds its key at the end when it is new. */
  lemma KeysInOrderExtend<T, K>(s: seq<T>, key: T -> K, i: int)
    requires 0 <= i < |s|
    ensures var keys := KeysInOrder(s[..i], key);
      KeysInOrder(s[..i + 1], key) == if key(s[i]) in keys then keys else keys + [key(s[i])]
  {
    assert s[..i + 1][..i] == s[..i];
  }

  /** The elements with key `c`, in order: the group of `c` in an object
      built by pushing each element onto the entry of its key. */
  function ByKey<T, K(==)>(s: seq<T>, key: T -> K, c: K): seq<T>
    decreases |s|
  {
    if s == [] then [] else (if key(s[0]) == c then [s[0]] else []) + ByKey(s[1..], key, c)
  }

  /** The group of `c` is the filter of the list by "has key `c`". */
  lemma {:induction false} ByKeyIsFilter<T, K>(s: seq<T>, key: T -> K, c: K)
    ensures ByKey(s, key, c) == Filter(s, x => key(x) == c)
    decreases |s|
  {
    if s != [] {
      ByKeyIsFilter(s[1..], key, c);
    }
  }

  /** The group of `c` holds exactly the elements whose key is `c`. */
  lemma ByKeyMembers<T, K>(s: seq<T>, key: T -> K, c: K)
    ensures forall k :: 0 <= k < |ByKey(s, key, c)| ==> ByKey(s, key, c)[k] in s && key(ByKey(s, key, c)[k]) == c
    ensures forall j :: 0 <= j < |s| && key(s[j]) == c ==> s[j] in ByKey(s, key, c)
  {
    ByKeyIsFilter(s, key, c);
  }

  /** Extending a list by one element extends the group of its key only. */
  lemma ByKeyExtend<T, K>(s: seq<T>, key: T -> K, i: int, c: K)
    requires 0 <= i < |s|
    ensures ByKey(s[..i + 1], key, c) == ByKey(s[..i], key, c) + (if key(s[i]) == c then [s[i]] else [])
  {
    ByKeyIsFilter(s[..i + 1], key, c);
    ByKeyIsFilter(s[..i], key, c);
    assert s[..i + 1] == s[..i] + [s[i]];
    FilterConcat(s[..i], [s[i]], x => key(x) == c);
    FilterKeepsOrMisses(s[i], x => key(x) == c);
  }

  /** A key that does not occur has an empty group. */
  lemma AbsentKeyIsEmpty<T, K>(s: seq<T>, key: T -> K, c: K)
    requires c !in KeysInOrder(s, key)
    ensures ByKey(s, key, c) == []
  {
    ByKeyIsFilter(s, key, c);
    FilterNonePass(s, x => key(x) == c);
  }

  /** The total of `f` over the group of each key in `keys`. */
  function SumOverKeys<T, K(==)>(keys: seq<K>, s: seq<T>, key: T -> K, f: T -> int): int
    decreases |keys|
  {
    if keys == [] then 0 else Sum(ByKey(s, key, keys[0]), f) + SumOverKeys(keys[1..], s, key, f)
  }

  lemma {:induction false} SumOverKeysOfEmpty<T, K>(keys: seq<K>, key: T -> K, f: T -> int)
    ensures SumOverKeys(keys, [], key, f) == 0
    decreases |keys|
  {
    if keys != [] {
      SumOverKeysOfEmpty(keys[1..], key, f);
    }
  }

  /** The group of a key, for a list with a first element. */
  lemma ByKeyCons<T, K>(x: T, rest: seq<T>, key: T -> K, c: K, f: T -> int)
    ensures ByKey([x] + rest, key, c) == (if key(x) == c then [x] else []) + ByKey(rest, key, c)
    ensures Sum(ByKey([x] + rest, key, c), f) == (if key(x) == c then f(x) else 0) + Sum(ByKey(rest, key, c), f)
  {
    var s := [x] + rest;
    assert s[0] == x && s[1..] == rest;
    if key(x) == c {
      var g := ByKey(rest, key, c);
      assert ([x] + g)[0] == x && ([x] + g)[1..] == g;
    } else {
      assert [] + ByKey(rest, key, c) == ByKey(rest, key, c);
    }
  }

  /** Peeling the first element off the list takes `f` of it from the group of
      each key equal to its own. */
  lemma {:induction false} SumOverKeysPeel<T, K>(keys: seq<K>, x: T, rest: seq<T>, key: T -> K, f: T -> int)
    requires NoDuplicates(keys) && key(x) in keys
    ensures SumOverKeys(keys, [x] + rest, key, f) == f(x) + SumOverKeys(keys, rest, key, f)
    decreases |keys|
  {
    ByKeyCons(x, rest, key, keys[0], f);
    assert NoDuplicates(keys[1..]) by {
      assert forall k :: 0 <= k < |keys[1..]| ==> keys[1..][k] == keys[k + 1];
    }
    if keys[0] == key(x) {
      assert key(x) !in keys[1..];
      SumOverKeysMisses(keys[1..], x, rest, key, f);
    } else {
      SumOverKeysPeel(keys[1..], x, rest, key, f);
    }
  }

  lemma {:induction false} SumOverKeysMisses<T, K>(keys: seq<K>, x: T, rest: seq<T>, key: T -> K, f: T -> int)
    requires key(x) !in keys
    ensures SumOverKeys(keys, [x] + rest, key, f) == SumOverKeys(keys, rest, key, f)
    decreases |keys|
  {
    if keys != [] {
      ByKeyCons(x, rest, key, keys[0], f);
      SumOverKeysMisses(keys[1..], x, rest, key, f);
    }
  }

  /** Over distinct keys that cover every element, the per-key totals add up
      to the total of the whole list. */
  lemma {:induction false} PartitionSum<T, K>(keys: seq<K>, s: seq<T>, key: T -> K, f: T -> int)
    requires NoDuplicates(keys)
    requires forall j :: 0 <= j < |s| ==> key(s[j]) in keys
    ensures SumOverKeys(keys, s, key, f) == Sum(s, f)
    decreases |s|
  {
    if s == [] {
      SumOverKeysOfEmpty(keys, key, f);
    } else {
      var rest := s[1..];
      assert s == [s[0]] + rest;
      SumOverKeysPeel(keys, s[0], rest, key, f);
      assert forall j :: 0 <= j < |rest| ==> rest[j] == s[j + 1];
      PartitionSum(keys, rest, key, f);
    }
  }

  /** Summing ones counts. */
  lemma {:induction false} SumOfOnes<T>(s: seq<T>, one: T -> int)
    requires forall j :: 0 <= j < |s| ==> one(s[j]) == 1
    ensures Sum(s, one) == |s|
    decreases |s|
  {
    if s != [] {
      assert forall j :: 0 <= j < |s[1..]| ==> s[1..][j] == s[j + 1];
      SumOfOnes(s[1..], one);
    }
  }
}
