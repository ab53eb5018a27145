/** The two sorts the batch code relies on: `list.sort()` on file paths,
    which orders strings by code point, and `sort(key=page_number)` on
    result records. */
module Sorting {

  /** Python's `a <= b` on strings: code point by code point, a proper prefix
      first. */
  predicate StrLe(a: string, b: string)
  {
    a == [] || (b != [] && (a[0] < b[0] || (a[0] == b[0] && StrLe(a[1..], b[1..]))))
  }

  lemma {:induction false} StrLeTotal(a: string, b: string)
    ensures StrLe(a, b) || StrLe(b, a)
    decreases |a|
  {
    if a != [] && b != [] && a[0] == b[0] {
      StrLeTotal(a[1..], b[1..]);
    }
  }

  lemma {:induction false} StrLeTrans(a: string, b: string, c: string)
    requires StrLe(a, b) && StrLe(b, c)
    ensures StrLe(a, c)
    decreases |a|
  {
    if a != [] && a[0] == b[0] && b[0] == c[0] {
      StrLeTrans(a[1..], b[1..], c[1..]);
    }
  }

  lemma {:induction false} StrLeAntisymmetric(a: string, b: string)
    requires StrLe(a, b) && StrLe(b, a)
    ensures a == b
    decreases |a|
  {
    if a != [] {
      StrLeAntisymmetric(a[1..], b[1..]);
      assert a == [a[0]] + a[1..] && b == [b[0]] + b[1..];
    }
  }

  predicate SortedStrings(s: seq<string>)
  {
    forall i, j :: 0 <= i < j < |s| ==> StrLe(s[i], s[j])
  }

  /** Puts `x` into its place in a sorted list. */
  function InsertString(x: string, s: seq<string>): (r: seq<string>)
    requires SortedStrings(s)
    ensures |r| == |s| + 1
    ensures SortedStrings(r)
    ensures multiset(r) == multiset(s) + multiset{x}
  {
    if s == [] then [x]
    else if StrLe(x, s[0]) then
      InsertedFirst(x, s);
      [x] + s
    else
      StrLeTotal(x, s[0]);
      var rest := InsertString(x, s[1..]);
      InsertedAfterFirst(x, s, rest);
      [s[0]] + rest
  }

  lemma InsertedFirst(x: string, s: seq<string>)
    requires SortedStrings(s) && s != [] && StrLe(x, s[0])
    ensures SortedStrings([x] + s)
  {
    forall j | 0 < j < |s|
      ensures StrLe(x, s[j])
    {
      StrLeTrans(x, s[0], s[j]);
    }
  }

  lemma InsertedAfterFirst(x: string, s: seq<string>, rest: seq<string>)
    requires SortedStrings(s) && s != [] && StrLe(s[0], x)
    requires SortedStrings(rest) && multiset(rest) == multiset(s[1..]) + multiset{x}
    ensures SortedStrings([s[0]] + rest)
    ensures multiset([s[0]] + rest) == multiset(s) + multiset{x}
  {
    assert s == [s[0]] + s[1..];
    forall k | 0 <= k < |rest|
      ensures StrLe(s[0], rest[k])
    {
      assert rest[k] in multiset(rest);
      assert rest[k] == x || rest[k] in s[1..];
    }
  }

  /** `sorted(paths)`: the same paths in ascending order. */
  function SortStrings(s: seq<string>): (r: seq<string>)
    ensures |r| == |s|
    ensures SortedStrings(r)
    ensures multiset(r) == multiset(s)
  {
    if s == [] then []
    else
      assert s == s[..|s| - 1] + [s[|s| - 1]];
      InsertString(s[|s| - 1], SortStrings(s[..|s| - 1]))
  }

  // ---------------------------------------------------------------------
  // Sorting by an integer key

  predicate SortedBy<T>(s: seq<T>, key: T -> int)
  {
    forall i, j :: 0 <= i < j < |s| ==> key(s[i]) <= key(s[j])
  }

  /** Inserts `x` after every element whose key is not above its own, so
      that elements with equal keys keep the order they arrived in. */
  function InsertBy<T>(x: T, s: seq<T>, key: T -> int): (r: seq<T>)
    requires SortedBy(s, key)
    ensures |r| == |s| + 1
    ensures SortedBy(r, key)
    ensures multiset(r) == multiset(s) + multiset{x}
  {
    if s == [] then [x]
    else if key(x) < key(s[0]) then [x] + s
    else
      var rest := InsertBy(x, s[1..], key);
      InsertedAfterHead(x, s, rest, key);
      [s[0]] + rest
  }

  /** Putting the head back in front of the insertion into the tail keeps the
      list sorted and adds `x` to its elements. */
  lemma InsertedAfterHead<T>(x: T, s: seq<T>, rest: seq<T>, key: T -> int)
    requires SortedBy(s, key) && s != [] && key(s[0]) <= key(x)
    requires SortedBy(rest, key) && multiset(rest) == multiset(s[1..]) + multiset{x}
    ensures SortedBy([s[0]] + rest, key)
    ensures multiset([s[0]] + rest) == multiset(s) + multiset{x}
  {
    assert s == [s[0]] + s[1..];
    forall k | 0 <= k < |rest|
      ensures key(s[0]) <= key(rest[k])
    {
      assert rest[k] in multiset(rest);
      assert rest[k] == x || rest[k] in s[1..];
    }
  }

  /** `r` is `s` with `x` put at position `m`, after every element whose key
      is at most its own and before every element whose key is above it. */
  ghost predicate PlacedAt<T>(x: T, s: seq<T>, r: seq<T>, m: nat, key: T -> int)
  {
    && m <= |s|
    && r == s[..m] + [x] + s[m..]
    && (forall k :: 0 <= k < m ==> key(s[k]) <= key(x))
    && (forall k :: m <= k < |s| ==> key(x) < key(s[k]))
  }

  /** How many leading elements have a key at most that of `x`. */
  function InsertPos<T>(x: T, s: seq<T>, key: T -> int): (m: nat)
    ensures m <= |s|
  {
    if s == [] || key(x) < key(s[0]) then 0 else 1 + InsertPos(x, s[1..], key)
  }

  /** Where the insertion puts `x`: the other elements keep their order,
      and `x` goes after those with equal keys. */
  lemma {:induction false} InsertByPlace<T>(x: T, s: seq<T>, key: T -> int)
    requires SortedBy(s, key)
    ensures PlacedAt(x, s, InsertBy(x, s, key), InsertPos(x, s, key), key)
    decreases |s|
  {
    if s == [] || key(x) < key(s[0]) {
      PlacedFirst(x, s, key);
    } else {
      var tail := s[1..];
      InsertByPlace(x, tail, key);
      PlacedAfterHead(x, s, InsertBy(x, tail, key), InsertPos(x, tail, key), key);
      assert InsertBy(x, s, key) == [s[0]] + InsertBy(x, tail, key);
    }
  }

  /** An `x` whose key is below the head's goes in front of a sorted list. */
  lemma PlacedFirst<T>(x: T, s: seq<T>, key: T -> int)
    requires SortedBy(s, key) && (s == [] || key(x) < key(s[0]))
    ensures PlacedAt(x, s, [x] + s, 0, key)
  {
    assert s[..0] == [] && s[0..] == s;
  }

  /** The head whose key is at most that of `x` stays in front. */
  lemma PlacedAfterHead<T>(x: T, s: seq<T>, rest: seq<T>, m: nat, key: T -> int)
    requires s != [] && key(s[0]) <= key(x) && PlacedAt(x, s[1..], rest, m, key)
    ensures PlacedAt(x, s, [s[0]] + rest, m + 1, key)
  {
    assert s[..m + 1] == [s[0]] + s[1..][..m];
    assert s[m + 1..] == s[1..][m..];
  }

  /** `sorted(s, key=key)`: the elements in ascending key order, each new
      element placed after the earlier ones with the same key. */
  function SortBy<T>(s: seq<T>, key: T -> int): (r: seq<T>)
    ensures |r| == |s|
    ensures SortedBy(r, key)
    ensures multiset(r) == multiset(s)
  {
    if s == [] then []
    else
      assert s == s[..|s| - 1] + [s[|s| - 1]];
      InsertBy(s[|s| - 1], SortBy(s[..|s| - 1], key), key)
  }

  /** Keys strictly increasing along the list. */
  predicate StrictlyIncreasing<T>(s: seq<T>, key: T -> int)
  {
    forall i, j :: 0 <= i < j < |s| ==> key(s[i]) < key(s[j])
  }

  /** The first element of a sorted rearrangement of a strictly increasing
      list is that list's first element. */
  lemma HeadsAgree<T>(r: seq<T>, c: seq<T>, key: T -> int)
    requires SortedBy(r, key) && StrictlyIncreasing(c, key)
    requires multiset(r) == multiset(c) && c != []
    ensures r != [] && r[0] == c[0]
  {
    assert c[0] in multiset(r);
    var j :| 0 <= j < |r| && r[j] == c[0];
    assert r[0] in multiset(c);
    var k :| 0 <= k < |c| && c[k] == r[0];
    assert key(r[0]) <= key(r[j]);
    assert k == 0;
  }

  /** A list sorted by key is the only ordering of its elements when the
      keys are distinct: sorting any rearrangement of a strictly increasing
      list gives that list back. */
  lemma {:induction false} SortedUnique<T>(r: seq<T>, c: seq<T>, key: T -> int)
    requires SortedBy(r, key) && StrictlyIncreasing(c, key)
    requires multiset(r) == multiset(c)
    ensures r == c
    decreases |c|
  {
    if c == [] {
      assert |r| == |multiset(r)| == 0;
    } else {
      HeadsAgree(r, c, key);
      DropFirst(r);
      DropFirst(c);
      SortedUnique(r[1..], c[1..], key);
    }
  }

  // ---------------------------------------------------------------------
  // Rearrangements given by positions

  /** 0, 1, ..., n - 1. */
  function Range(n: nat): (r: seq<nat>)
    ensures |r| == n && forall i :: 0 <= i < n ==> r[i] == i
  {
    if n == 0 then [] else Range(n - 1) + [n - 1]
  }

  predicate InRange(indices: seq<nat>, n: nat)
  {
    forall k :: 0 <= k < |indices| ==> indices[k] < n
  }

  /** The elements of `s` at the given positions, in that order. */
  function Pick<T>(s: seq<T>, indices: seq<nat>): (r: seq<T>)
    requires InRange(indices, |s|)
    ensures |r| == |indices|
    ensures forall k :: 0 <= k < |indices| ==> r[k] == s[indices[k]]
  {
    if indices == [] then [] else Pick(s, indices[..|indices| - 1]) + [s[indices[|indices| - 1]]]
  }

  lemma PickNext<T>(s: seq<T>, order: seq<nat>, j: nat)
    requires InRange(order, |s|) && j < |order|
    ensures InRange(order[..j], |s|) && InRange(order[..j + 1], |s|)
    ensures Pick(s, order[..j + 1]) == Pick(s, order[..j]) + [s[order[j]]]
  {
    InRangePrefix(order, |s|, j);
    InRangePrefix(order, |s|, j + 1);
    var next := order[..j + 1];
    assert next[..j] == order[..j];
  }

  lemma InRangePrefix(indices: seq<nat>, n: nat, k: nat)
    requires InRange(indices, n) && k <= |indices|
    ensures InRange(indices[..k], n)
  {
    forall m | 0 <= m < k
      ensures indices[..k][m] < n
    {
      assert indices[..k][m] == indices[m];
    }
  }

  /** A prefix one longer is the prefix and the next element. */
  lemma PrefixNext<T>(s: seq<T>, k: nat)
    requires 0 < k <= |s|
    ensures s[..k] == s[..k - 1] + [s[k - 1]]
  {
  }

  lemma PickAll<T>(s: seq<T>)
    ensures InRange(Range(|s|), |s|) && Pick(s, Range(|s|)) == s
  {
  }

  lemma PickAppend<T>(s: seq<T>, x: seq<nat>, y: seq<nat>)
    requires InRange(x, |s|) && InRange(y, |s|)
    ensures InRange(x + y, |s|)
    ensures Pick(s, x + y) == Pick(s, x) + Pick(s, y)
  {
    var l, r := Pick(s, x + y), Pick(s, x) + Pick(s, y);
    assert |l| == |r|;
    forall k | 0 <= k < |l|
      ensures l[k] == r[k]
    {
      if k < |x| {
        assert (x + y)[k] == x[k];
      } else {
        assert (x + y)[k] == y[k - |x|];
      }
    }
  }

  /** Taking one position out of the list takes its element out of what is
      picked. */
  lemma PickRemove<T>(s: seq<T>, b: seq<nat>, m: nat)
    requires InRange(b, |s|) && m < |b|
    ensures InRange(b[..m] + b[m + 1..], |s|)
    ensures multiset(Pick(s, b)) == multiset(Pick(s, b[..m] + b[m + 1..])) + multiset{s[b[m]]}
  {
    InRangePrefix(b, |s|, m);
    InRangeSuffix(b, |s|, m + 1);
    PickAround(s, b, m);
    PickAppend(s, b[..m], b[m + 1..]);
    MultisetMiddle(Pick(s, b[..m]), s[b[m]], Pick(s, b[m + 1..]));
  }

  lemma PickAround<T>(s: seq<T>, b: seq<nat>, m: nat)
    requires InRange(b, |s|) && m < |b|
    requires InRange(b[..m], |s|) && InRange(b[m + 1..], |s|)
    ensures Pick(s, b) == Pick(s, b[..m]) + [s[b[m]]] + Pick(s, b[m + 1..])
  {
    var front, back := b[..m], b[m + 1..];
    InRangePrefix(b, |s|, m + 1);
    assert b[..m + 1] == front + [b[m]];
    assert b == b[..m + 1] + back;
    PickAppend(s, front, [b[m]]);
    PickAppend(s, b[..m + 1], back);
  }

  lemma MultisetMiddle<T>(front: seq<T>, x: T, back: seq<T>)
    ensures multiset(front + [x] + back) == multiset(front + back) + multiset{x}
  {
  }

  lemma InRangeSuffix(indices: seq<nat>, n: nat, k: nat)
    requires InRange(indices, n) && k <= |indices|
    ensures InRange(indices[k..], n)
  {
    forall m | 0 <= m < |indices| - k
      ensures indices[k..][m] < n
    {
      assert indices[k..][m] == indices[k + m];
    }
  }

  lemma RemoveAt<T>(b: seq<T>, m: nat)
    requires m < |b|
    ensures multiset(b[..m] + b[m + 1..]) == multiset(b) - multiset{b[m]}
  {
    assert b == b[..m] + [b[m]] + b[m + 1..];
  }

  lemma DropFirst<T>(a: seq<T>)
    requires a != []
    ensures multiset(a[1..]) == multiset(a) - multiset{a[0]}
  {
    assert a == [a[0]] + a[1..];
  }

  lemma RemoveLast<T>(a: seq<T>)
    requires a != []
    ensures a == a[..|a| - 1] + [a[|a| - 1]]
    ensures multiset(a[..|a| - 1]) == multiset(a) - multiset{a[|a| - 1]}
  {
    assert a == a[..|a| - 1] + [a[|a| - 1]];
  }

  /** Rearranging the positions rearranges the elements picked. */
  lemma {:induction false} PickPermute<T>(s: seq<T>, a: seq<nat>, b: seq<nat>)
    requires InRange(a, |s|)
    requires multiset(a) == multiset(b)
    ensures InRange(b, |s|)
    ensures multiset(Pick(s, a)) == multiset(Pick(s, b))
    decreases |a|
  {
    assert forall k :: 0 <= k < |b| ==> b[k] in multiset(a);
    if a == [] {
      assert |b| == |multiset(b)| == 0;
    } else {
      var x := a[|a| - 1];
      var a' := a[..|a| - 1];
      assert a == a' + [x];
      assert x in multiset(b);
      var m :| 0 <= m < |b| && b[m] == x;
      var b' := b[..m] + b[m + 1..];
      RemoveAt(b, m);
      RemoveLast(a);
      PickPermute(s, a', b');
      PickRemove(s, b, m);
      assert Pick(s, a) == Pick(s, a') + [s[x]];
    }
  }

  /** Sorting by key any rearrangement of a list whose keys strictly
      increase gives that list. */
  lemma SortPermuted<T>(s: seq<T>, order: seq<nat>, key: T -> int)
    requires StrictlyIncreasing(s, key)
    requires multiset(order) == multiset(Range(|s|))
    ensures InRange(order, |s|)
    ensures SortBy(Pick(s, order), key) == s
  {
    PickAll(s);
    PickPermute(s, Range(|s|), order);
    SortedUnique(SortBy(Pick(s, order), key), s, key);
  }

  // ---------------------------------------------------------------------
  // Lists without repeated elements

  predicate Distinct<T(==)>(s: seq<T>)
  {
    forall i, j :: 0 <= i < j < |s| ==> s[i] != s[j]
  }

  /** A list without repeats holds each value at most once. */
  lemma {:induction false} DistinctOnce<T>(s: seq<T>, x: T)
    requires Distinct(s)
    ensures multiset(s)[x] <= 1
    decreases |s|
  {
    if s != [] {
      var init := s[..|s| - 1];
      assert s == init + [s[|s| - 1]];
      DistinctOnce(init, x);
      if x == s[|s| - 1] {
        assert x !in init;
      }
    }
  }

  /** A rearrangement of a list without repeats has none either. */
  lemma DistinctRearranged<T>(r: seq<T>, s: seq<T>)
    requires Distinct(s) && multiset(r) == multiset(s)
    ensures Distinct(r)
  {
    forall i, j | 0 <= i < j < |r|
      ensures r[i] != r[j]
    {
      if r[i] == r[j] {
        var x := r[i];
        assert r == r[..i] + [x] + r[i + 1..j] + [x] + r[j + 1..];
        assert multiset(r)[x] >= 2;
        DistinctOnce(s, x);
      }
    }
  }

  lemma RangeDistinct(n: nat)
    ensures Distinct(Range(n))
  {
  }

  /** When no two elements share a key, sorting by key orders the keys
      strictly. */
  lemma SortDistinctKeys<T>(s: seq<T>, key: T -> int)
    requires forall i, j :: 0 <= i < j < |s| ==> key(s[i]) != key(s[j])
    ensures StrictlyIncreasing(SortBy(s, key), key)
  {
    var r := SortBy(s, key);
    forall a, b | 0 <= a < b < |r|
      ensures key(r[a]) < key(r[b])
    {
      RearrangedKeysDiffer(s, r, key, a, b);
    }
  }

  lemma RearrangedKeysDiffer<T>(s: seq<T>, r: seq<T>, key: T -> int, a: nat, b: nat)
    requires forall i, j :: 0 <= i < j < |s| ==> key(s[i]) != key(s[j])
    requires multiset(r) == multiset(s)
    requires a < b < |r|
    ensures key(r[a]) != key(r[b])
  {
    assert r[a] in multiset(s) && r[b] in multiset(s);
    var p :| 0 <= p < |s| && s[p] == r[a];
    var q :| 0 <= q < |s| && s[q] == r[b];
    if p == q {
      assert multiset(r)[r[a]] >= 2 by {
        assert r == r[..a] + [r[a]] + r[a + 1..b] + [r[b]] + r[b + 1..];
      }
      DistinctOnce(s, r[a]);
      assert false;
    }
  }

  /** Elements picked at distinct positions of a list with strictly
      increasing keys have distinct keys. */
  lemma PickedKeysDistinct<T>(s: seq<T>, positions: seq<nat>, key: T -> int)
    requires StrictlyIncreasing(s, key) && Distinct(positions) && InRange(positions, |s|)
    ensures forall p, q :: 0 <= p < q < |positions| ==>
      key(Pick(s, positions)[p]) != key(Pick(s, positions)[q])
  {
    var picked := Pick(s, positions);
    forall p, q | 0 <= p < q < |positions|
      ensures key(picked[p]) != key(picked[q])
    {
      var a, b := positions[p], positions[q];
      if a < b {
        assert key(s[a]) < key(s[b]);
      } else {
        assert key(s[b]) < key(s[a]);
      }
    }
  }

  /** The positions of a rearrangement of 0 .. n-1 are below n and all
      different. */
  lemma RearrangedRange(order: seq<nat>, n: nat)
    requires multiset(order) == multiset(Range(n))
    ensures InRange(order, n) && Distinct(order)
  {
    forall k | 0 <= k < |order|
      ensures order[k] < n
    {
      assert order[k] in multiset(Range(n));
    }
    RangeDistinct(n);
    DistinctRearranged(order, Range(n));
  }

  /** Sorting by key the elements at the first `m` positions of a
      rearrangement of all positions gives a strictly ordered selection of
      the list, and the whole list when `m` covers every position. */
  lemma SortPickedPrefix<T>(s: seq<T>, order: seq<nat>, m: nat, key: T -> int)
    requires StrictlyIncreasing(s, key)
    requires multiset(order) == multiset(Range(|s|)) && m <= |order|
    ensures InRange(order, |s|) && InRange(order[..m], |s|)
    ensures StrictlyIncreasing(SortBy(Pick(s, order[..m]), key), key)
    ensures forall x :: x in SortBy(Pick(s, order[..m]), key) ==> x in s
    ensures m == |s| ==> SortBy(Pick(s, order[..m]), key) == s
  {
    RearrangedRange(order, |s|);
    var prefix := order[..m];
    PrefixKeeps(order, m, |s|);
    PickedKeysDistinct(s, prefix, key);
    SortDistinctKeys(Pick(s, prefix), key);
    PickedFrom(s, prefix, key);
    if m == |s| {
      SortPermuted(s, order, key);
      PrefixWhole(order, m);
    }

  }

  lemma PrefixWhole<T>(s: seq<T>, m: nat)
    requires m == |s|
    ensures s[..m] == s
  {
  }

  lemma PrefixKeeps(order: seq<nat>, m: nat, n: nat)
    requires InRange(order, n) && Distinct(order) && m <= |order|
    ensures InRange(order[..m], n) && Distinct(order[..m])
  {
  }

  /** What is picked, and then sorted, comes from the list. */
  lemma PickedFrom<T>(s: seq<T>, positions: seq<nat>, key: T -> int)
    requires InRange(positions, |s|)
    ensures forall x :: x in SortBy(Pick(s, positions), key) ==> x in s
  {
    forall x | x in SortBy(Pick(s, positions), key)
      ensures x in s
    {
      assert x in multiset(Pick(s, positions));
    }
  }
}
