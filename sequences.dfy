/**
 * The list operations the scripts borrow from Array.prototype and Set:
 * `filter`, de-duplication through `new Set(...)` (first-seen order),
 * grouping by a key, and the stable `sort` under a comparator.
 */
module Sequences {
  import opened Wrappers

  /** `s.filter(p)`. */
  function Filter<T(!new)>(s: seq<T>, p: T -> bool): (r: seq<T>)
    ensures |r| <= |s|
    ensures forall x :: x in r <==> x in s && p(x)
  {
    if s == [] then []
    else if p(s[0]) then [s[0]] + Filter(s[1..], p)
    else Filter(s[1..], p)
  }

  /** `r` is `s` with some elements left out, the rest in their order. */
  predicate IsSubsequence<T(==)>(r: seq<T>, s: seq<T>)
    decreases |s|
  {
    r == [] || (s != [] && ((r[0] == s[0] && IsSubsequence(r[1..], s[1..])) || IsSubsequence(r, s[1..])))
  }

  /** Filtering keeps the surviving elements in their order. */
  lemma {:induction false} FilterIsSubsequence<T(!new)>(s: seq<T>, p: T -> bool)
    ensures IsSubsequence(Filter(s, p), s)
  {
    if s != [] {
      FilterIsSubsequence(s[1..], p);
      if p(s[0]) {
        assert Filter(s, p)[1..] == Filter(s[1..], p);
      }
    }
  }

  /** A filter that accepts every element returns the whole list. */
  lemma {:induction false} FilterAll<T(!new)>(s: seq<T>, p: T -> bool)
    requires forall i :: 0 <= i < |s| ==> p(s[i])
    ensures Filter(s, p) == s
  {
    if s != [] {
      FilterAll(s[1..], p);
    }
  }

  /** Filtering counts each surviving element as often as the list does. */
  lemma {:induction false} FilterMultiset<T(!new)>(s: seq<T>, p: T -> bool, x: T)
    ensures multiset(Filter(s, p))[x] == if p(x) then multiset(s)[x] else 0
  {
    if s != [] {
      FilterMultiset(s[1..], p, x);
      assert s == [s[0]] + s[1..];
    }
  }

  /** No element occurs twice. */
  predicate NoDuplicates<T(==)>(s: seq<T>)
  {
    forall i, j :: 0 <= i < j < |s| ==> s[i] != s[j]
  }

  /** The position of the first occurrence of `x`. */
  function FirstIndex<T(==)>(s: seq<T>, x: T): (k: nat)
    requires x in s
    ensures k < |s| && s[k] == x
    ensures forall m :: 0 <= m < k ==> s[m] != x
  {
    if s[0] == x then 0 else 1 + FirstIndex(s[1..], x)
  }

  /** The first occurrence in a prefix is the first occurrence in the whole. */
  lemma FirstIndexPrefix<T>(s: seq<T>, n: nat, x: T)
    requires n <= |s| && x in s[..n]
    ensures FirstIndex(s, x) == FirstIndex(s[..n], x)
  {
    var k := FirstIndex(s, x);
    var k' := FirstIndex(s[..n], x);
    assert s[k'] == x;
    assert k <= k';
    assert s[..n][k] == x;
  }

  /** `[...new Set(s)]`: the distinct elements of `s` in order of first appearance. */
  function Dedup<T(==,!new)>(s: seq<T>): (r: seq<T>)
    ensures forall x :: x in r <==> x in s
    ensures NoDuplicates(r)
  {
    if s == [] then []
    else
      var d := Dedup(s[..|s| - 1]);
      var x := s[|s| - 1];
      assert forall y :: y in s <==> y in s[..|s| - 1] || y == x by {
        assert s == s[..|s| - 1] + [x];
      }
      if x in d then d else d + [x]
  }

  /** The elements of `d` occur in `s`, and first occur there in the order of `d`. */
  predicate FirstSeenOrder<T(==)>(s: seq<T>, d: seq<T>)
  {
    (forall i :: 0 <= i < |d| ==> d[i] in s) &&
    forall i, j :: 0 <= i < j < |d| ==> FirstIndex(s, d[i]) < FirstIndex(s, d[j])
  }

  /** Each element of the de-duplicated list first appears earlier in `s` than the elements after it. */
  lemma {:induction false} DedupFirstSeenOrder<T(!new)>(s: seq<T>)
    ensures FirstSeenOrder(s, Dedup(s))
  {
    if s != [] {
      var n := |s| - 1;
      var d := Dedup(s[..n]);
      DedupFirstSeenOrder(s[..n]);
      FirstSeenOrderExtend(s, n, d);
      if s[n] !in d {
        FirstSeenOrderAppend(s, n, d);
      }
    }
  }

  /** Elements of a prefix keep their first positions, all before the prefix ends, in the whole list. */
  lemma FirstSeenOrderExtend<T>(s: seq<T>, n: nat, d: seq<T>)
    requires n <= |s| && FirstSeenOrder(s[..n], d)
    ensures FirstSeenOrder(s, d)
    ensures forall i :: 0 <= i < |d| ==> d[i] in s && FirstIndex(s, d[i]) < n
  {
    forall i | 0 <= i < |d| ensures d[i] in s && FirstIndex(s, d[i]) == FirstIndex(s[..n], d[i]) < n {
      assert d[i] in s[..n];
      FirstIndexPrefix(s, n, d[i]);
    }
  }

  /** An element first seen at position `n` may follow the elements seen before it. */
  lemma FirstSeenOrderAppend<T>(s: seq<T>, n: nat, d: seq<T>)
    requires n < |s| && s[n] !in d && FirstSeenOrder(s, d)
    requires forall y :: y in d <==> y in s[..n]
    requires forall i :: 0 <= i < |d| ==> d[i] in s && FirstIndex(s, d[i]) < n
    ensures FirstSeenOrder(s, d + [s[n]])
  {
    var x := s[n];
    assert FirstIndex(s, x) == n by {
      assert x !in s[..n];
      forall m | 0 <= m < n ensures s[m] != x {
        assert s[m] == s[..n][m];
      }
    }
    var r := d + [x];
    forall i, j | 0 <= i < j < |r| ensures FirstIndex(s, r[i]) < FirstIndex(s, r[j]) {
      assert r[i] == d[i];
      if j < |d| {
        assert r[j] == d[j];
      }
    }
  }

  /** The elements of `s` whose key is `k`, in order (`s.filter(x => key(x) === k)`). */
  function WithKey<T(!new), K(==)>(s: seq<T>, key: T -> K, k: K): (r: seq<T>)
    ensures forall x :: x in r <==> x in s && key(x) == k
  {
    if s == [] then []
    else if key(s[0]) == k then [s[0]] + WithKey(s[1..], key, k)
    else WithKey(s[1..], key, k)
  }

  /** The elements of all the groups named by `ks`, counted with multiplicity. */
  function Groups<T(!new), K(==)>(s: seq<T>, key: T -> K, ks: seq<K>): multiset<T>
  {
    if ks == [] then multiset{} else multiset(WithKey(s, key, ks[0])) + Groups(s, key, ks[1..])
  }

  /** Adding an element to the list adds it to exactly the one group of its key, if that key is named. */
  lemma {:induction false} GroupsCons<T(!new), K>(x: T, t: seq<T>, key: T -> K, ks: seq<K>)
    requires NoDuplicates(ks)
    ensures Groups([x] + t, key, ks) ==
            (if key(x) in ks then multiset{x} else multiset{}) + Groups(t, key, ks)
  {
    if ks != [] {
      TailNoDuplicates(ks);
      GroupsCons(x, t, key, ks[1..]);
      WithKeyCons(x, t, key, ks[0]);
    }
  }

  /** Adding an element to the list adds it to the group of its own key only. */
  lemma WithKeyCons<T(!new), K>(x: T, t: seq<T>, key: T -> K, k: K)
    ensures multiset(WithKey([x] + t, key, k)) ==
            (if key(x) == k then multiset{x} else multiset{}) + multiset(WithKey(t, key, k))
  {
    assert ([x] + t)[1..] == t;
  }

  /** The tail of a list without duplicates has none, and lacks the head. */
  lemma TailNoDuplicates<K>(ks: seq<K>)
    requires ks != [] && NoDuplicates(ks)
    ensures NoDuplicates(ks[1..]) && ks[0] !in ks[1..]
  {
    forall i | 0 <= i < |ks[1..]| ensures ks[1..][i] != ks[0] {
      assert ks[1..][i] == ks[i + 1];
    }
  }

  /**
   * Groups by distinct keys that name every key occurring in `s` partition
   * `s`: each element lands in exactly one group, as often as it occurs.
   */
  lemma {:induction false} GroupsPartition<T(!new), K>(s: seq<T>, key: T -> K, ks: seq<K>)
    requires NoDuplicates(ks)
    requires forall i :: 0 <= i < |s| ==> key(s[i]) in ks
    ensures Groups(s, key, ks) == multiset(s)
  {
    if s == [] {
      GroupsEmpty(key, ks);
    } else {
      assert s == [s[0]] + s[1..];
      GroupsCons(s[0], s[1..], key, ks);
      GroupsPartition(s[1..], key, ks);
    }
  }

  lemma {:induction false} GroupsEmpty<T(!new), K>(key: T -> K, ks: seq<K>)
    ensures Groups([], key, ks) == multiset{}
  {
    if ks != [] {
      GroupsEmpty(key, ks[1..]);
    }
  }

  /** `le` is total and transitive, as `a.localeCompare(b) <= 0` is. */
  ghost predicate TotalPreorder(le: (string, string) -> bool)
  {
    (forall a, b :: le(a, b) || le(b, a)) &&
    (forall a, b, c :: le(a, b) && le(b, c) ==> le(a, c))
  }

  /** Neighbouring elements are in order by key. */
  predicate SortedBy<T>(s: seq<T>, key: T -> string, le: (string, string) -> bool)
  {
    forall i :: 0 < i < |s| ==> le(key(s[i - 1]), key(s[i]))
  }

  /** Put `x` before the first element it is not after: elements of equal key keep their order. */
  function InsertBy<T>(x: T, s: seq<T>, key: T -> string, le: (string, string) -> bool): (r: seq<T>)
    ensures multiset(r) == multiset(s) + multiset{x}
    ensures |r| == |s| + 1
  {
    if s == [] || le(key(x), key(s[0])) then [x] + s
    else
      assert s == [s[0]] + s[1..];
      [s[0]] + InsertBy(x, s[1..], key, le)
  }

  /** `s.sort((a, b) => cmp(key(a), key(b)))`, a stable sort. */
  function SortBy<T>(s: seq<T>, key: T -> string, le: (string, string) -> bool): (r: seq<T>)
    ensures multiset(r) == multiset(s)
    ensures |r| == |s|
  {
    if s == [] then []
    else
      assert s == [s[0]] + s[1..];
      InsertBy(s[0], SortBy(s[1..], key, le), key, le)
  }

  lemma {:induction false} InsertBySorted<T>(x: T, s: seq<T>, key: T -> string, le: (string, string) -> bool)
    requires TotalPreorder(le)
    requires SortedBy(s, key, le)
    ensures SortedBy(InsertBy(x, s, key, le), key, le)
    ensures InsertBy(x, s, key, le)[0] == x || (s != [] && InsertBy(x, s, key, le)[0] == s[0])
  {
    if s != [] && !le(key(x), key(s[0])) {
      InsertBySorted(x, s[1..], key, le);
      var r := InsertBy(x, s, key, le);
      var t := InsertBy(x, s[1..], key, le);
      assert r == [s[0]] + t;
      assert le(key(s[0]), key(x));
      forall i | 0 < i < |r| ensures le(key(r[i - 1]), key(r[i])) {
        if i > 1 {
          assert r[i - 1] == t[i - 2] && r[i] == t[i - 1];
        }
      }
    }
  }

  /** The sorted list is in order by key. */
  lemma {:induction false} SortBySorted<T>(s: seq<T>, key: T -> string, le: (string, string) -> bool)
    requires TotalPreorder(le)
    ensures SortedBy(SortBy(s, key, le), key, le)
  {
    if s != [] {
      SortBySorted(s[1..], key, le);
      InsertBySorted(s[0], SortBy(s[1..], key, le), key, le);
    }
  }

  /** Element `i` is the first one on which `f` throws, with error `e`. */
  predicate FirstErrorAt<A, B>(xs: seq<A>, f: A -> Result<B>, i: int, e: string)
  {
    0 <= i < |xs| && f(xs[i]) == Err(e) && forall j :: 0 <= j < i ==> f(xs[j]).Ok?
  }

  /**
   * `xs.map(f)` where `f` may throw: every element mapped, in order, or the
   * error of the first element that throws.
   */
  function MapAll<A, B>(xs: seq<A>, f: A -> Result<B>): (r: Result<seq<B>>)
    ensures r.Ok? <==> forall i :: 0 <= i < |xs| ==> f(xs[i]).Ok?
    ensures r.Ok? ==> |r.value| == |xs| && forall i :: 0 <= i < |xs| ==> f(xs[i]) == Ok(r.value[i])
    ensures r.Err? ==> exists i :: FirstErrorAt(xs, f, i, r.message)
  {
    if xs == [] then Ok([])
    else
      match f(xs[0])
      case Err(e) =>
        assert FirstErrorAt(xs, f, 0, e);
        Err(e)
      case Ok(first) =>
        match MapAll(xs[1..], f)
        case Err(e) =>
          var i :| FirstErrorAt(xs[1..], f, i, e);
          FirstErrorShift(xs, f, i, e);
          Err(e)
        case Ok(rest) =>
          MapAllCons(xs, f, first, rest);
          Ok([first] + rest)
  }

  lemma FirstErrorShift<A, B>(xs: seq<A>, f: A -> Result<B>, i: int, e: string)
    requires xs != [] && f(xs[0]).Ok? && FirstErrorAt(xs[1..], f, i, e)
    ensures FirstErrorAt(xs, f, i + 1, e)
  {
    assert xs[i + 1] == xs[1..][i];
    forall j | 1 <= j < i + 1 ensures f(xs[j]).Ok? {
      assert xs[j] == xs[1..][j - 1];
    }
  }

  lemma MapAllCons<A, B>(xs: seq<A>, f: A -> Result<B>, first: B, rest: seq<B>)
    requires xs != [] && f(xs[0]) == Ok(first) && |rest| == |xs| - 1
    requires forall i :: 0 <= i < |xs| - 1 ==> f(xs[1..][i]) == Ok(rest[i])
    ensures forall i :: 0 <= i < |xs| ==> f(xs[i]) == Ok(([first] + rest)[i])
  {
    forall i | 1 <= i < |xs| ensures f(xs[i]) == Ok(([first] + rest)[i]) {
      assert xs[i] == xs[1..][i - 1];
    }
  }
}
