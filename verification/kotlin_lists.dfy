/** The Kotlin collection operations the view-models use: the client's own
    `updated` and `togglePresenceInSet` helpers, `List.minus(element)`,
    `dropWhile`, `distinctBy`, and `sortedBy { .. }` / `.reversed()`. */
module KotlinLists {

  /** `Iterable<T>.updated(old, new)`: every element equal to `before` becomes `after`. */
  function Updated<T(==)>(xs: seq<T>, before: T, after: T): (r: seq<T>)
    ensures |r| == |xs|
    ensures forall i :: 0 <= i < |xs| && xs[i] == before ==> r[i] == after
    ensures forall i :: 0 <= i < |xs| && xs[i] != before ==> r[i] == xs[i]
  {
    if |xs| == 0 then []
    else [if xs[0] == before then after else xs[0]] + Updated(xs[1..], before, after)
  }

  /** `togglePresenceInSet(set, item)`. */
  function TogglePresence<T(!new)>(s: set<T>, item: T): (r: set<T>)
    ensures item in r <==> item !in s
    ensures forall y :: y != item ==> (y in r <==> y in s)
  {
    if item in s then s - {item} else s + {item}
  }

  /** Toggling the same item twice gives back the original set. */
  lemma TogglePresenceTwice<T(!new)>(s: set<T>, item: T)
    ensures TogglePresence(TogglePresence(s, item), item) == s
  {
  }

  /** The position of the first element equal to `x`, or `|xs|` when there is none. */
  function IndexOf<T(==)>(xs: seq<T>, x: T): (i: nat)
    ensures i <= |xs| && x !in xs[..i]
    ensures i < |xs| ==> xs[i] == x
    ensures i == |xs| <==> x !in xs
  {
    if |xs| == 0 then 0
    else if xs[0] == x then 0
    else
      var i := IndexOf(xs[1..], x) + 1;
      assert xs[..i] == [xs[0]] + xs[1..][..i - 1];
      assert xs == [xs[0]] + xs[1..];
      i
  }

  /** `List.minus(element)`: drops the first element equal to `x`, if any. */
  function RemoveFirst<T(==)>(xs: seq<T>, x: T): (r: seq<T>)
    ensures x !in xs ==> r == xs
    ensures x in xs ==> exists i :: 0 <= i < |xs| && xs[i] == x && x !in xs[..i] && r == xs[..i] + xs[i + 1..]
    ensures multiset(r) == multiset(xs) - multiset{x}
  {
    var i := IndexOf(xs, x);
    if i == |xs| then xs
    else
      assert xs == xs[..i] + [xs[i]] + xs[i + 1..];
      xs[..i] + xs[i + 1..]
  }

  /** `dropWhile(p)`: the suffix that starts at the first element failing `p`. */
  function DropWhile<T>(xs: seq<T>, p: T -> bool): (r: seq<T>)
    ensures |r| <= |xs| && r == xs[|xs| - |r|..]
    ensures forall i :: 0 <= i < |xs| - |r| ==> p(xs[i])
    ensures r == [] || !p(r[0])
  {
    if |xs| > 0 && p(xs[0]) then
      var r := DropWhile(xs[1..], p);
      assert forall i :: 1 <= i < |xs| - |r| ==> xs[i] == xs[1..][i - 1];
      r
    else xs
  }

  /** Whether position `i` holds the first element of `xs` with its key. */
  ghost predicate FirstOfKey<T, K>(xs: seq<T>, key: T -> K, i: int)
    requires 0 <= i < |xs|
  {
    forall j :: 0 <= j < i ==> key(xs[j]) != key(xs[i])
  }

  /** Whether an element before position `n` has the same key as `xs[n]`. */
  predicate KeySeenBefore<T, K(==)>(xs: seq<T>, key: T -> K, n: nat)
    requires n < |xs|
  {
    exists j :: 0 <= j < n && key(xs[j]) == key(xs[n])
  }

  /** `distinctBy(key)`: keeps the first element of each key, in order. */
  function DistinctBy<T, K(==)>(xs: seq<T>, key: T -> K): (r: seq<T>)
    ensures |r| <= |xs|
    ensures multiset(r) <= multiset(xs)
  {
    if |xs| == 0 then []
    else
      var n := |xs| - 1;
      assert xs == xs[..n] + [xs[n]];
      if KeySeenBefore(xs, key, n) then DistinctBy(xs[..n], key)
      else DistinctBy(xs[..n], key) + [xs[n]]
  }

  /** The keys of the elements of `s`. */
  ghost function Keys<T, K>(s: seq<T>, key: T -> K): set<K> {
    set i | 0 <= i < |s| :: key(s[i])
  }

  lemma KeysSnoc<T, K>(s: seq<T>, x: T, key: T -> K)
    ensures Keys(s + [x], key) == Keys(s, key) + {key(x)}
  {
    var t := s + [x];
    assert t[|s|] == x;
    forall i | 0 <= i < |s| ensures t[i] == s[i] { }
  }

  /** `distinctBy` keeps exactly the keys of its input. */
  lemma {:induction false} DistinctByKeys<T, K>(xs: seq<T>, key: T -> K)
    ensures Keys(DistinctBy(xs, key), key) == Keys(xs, key)
  {
    if |xs| > 0 {
      var n := |xs| - 1;
      DistinctByKeys(xs[..n], key);
      var p := DistinctBy(xs[..n], key);
      assert xs == xs[..n] + [xs[n]];
      KeysSnoc(xs[..n], xs[n], key);
      if KeySeenBefore(xs, key, n) {
        var j :| 0 <= j < n && key(xs[j]) == key(xs[n]);
        assert xs[..n][j] == xs[j];
        assert key(xs[n]) in Keys(xs[..n], key);
      } else {
        KeysSnoc(p, xs[n], key);
      }
    }
  }

  /** The elements `distinctBy` keeps have pairwise different keys. */
  lemma {:induction false} DistinctByKeysDistinct<T, K>(xs: seq<T>, key: T -> K)
    ensures forall i, j :: 0 <= i < j < |DistinctBy(xs, key)| ==>
      key(DistinctBy(xs, key)[i]) != key(DistinctBy(xs, key)[j])
  {
    if |xs| > 0 {
      var n := |xs| - 1;
      DistinctByKeysDistinct(xs[..n], key);
      var p := DistinctBy(xs[..n], key);
      var r := DistinctBy(xs, key);
      assert forall i, j :: 0 <= i < j < |p| ==> key(p[i]) != key(p[j]);
      assert r == if KeySeenBefore(xs, key, n) then p else p + [xs[n]];
      if !KeySeenBefore(xs, key, n) {
        forall i, j | 0 <= i < j < |r| ensures key(r[i]) != key(r[j]) {
          if j == |p| {
            assert r[i] == p[i] && r[j] == xs[n];
            assert p[i] in multiset(p);
            assert p[i] in multiset(xs[..n]);
            var m :| 0 <= m < n && xs[..n][m] == p[i];
            assert xs[..n][m] == xs[m];
            assert key(xs[m]) != key(xs[n]);
          } else {
            assert r[i] == p[i] && r[j] == p[j];
          }
        }
      }
    }
  }

  /** `distinctBy` keeps the first element of each key. */
  lemma {:induction false} DistinctByKeepsFirst<T, K>(xs: seq<T>, key: T -> K)
    ensures forall i :: 0 <= i < |xs| && !KeySeenBefore(xs, key, i) ==> xs[i] in DistinctBy(xs, key)
  {
    if |xs| > 0 {
      var n := |xs| - 1;
      DistinctByKeepsFirst(xs[..n], key);
      var p := DistinctBy(xs[..n], key);
      var r := DistinctBy(xs, key);
      assert r == if KeySeenBefore(xs, key, n) then p else p + [xs[n]];
      forall i | 0 <= i < |xs| && !KeySeenBefore(xs, key, i) ensures xs[i] in r {
        if i < n {
          assert xs[..n][i] == xs[i];
          assert !KeySeenBefore(xs[..n], key, i) by {
            forall j | 0 <= j < i ensures key(xs[..n][j]) != key(xs[..n][i]) {
              assert xs[..n][j] == xs[j];
            }
          }
          assert xs[i] in p;
        } else {
          assert r == p + [xs[n]];
        }
      }
    }
  }

  /** No element occurs twice. */
  predicate NoDuplicates<T(==)>(s: seq<T>) {
    forall i, j :: 0 <= i < j < |s| ==> s[i] != s[j]
  }

  /** In a list without duplicates every element occurs at most once. */
  lemma {:induction false} NoDuplicatesCount<T>(s: seq<T>, x: T)
    requires NoDuplicates(s)
    ensures multiset(s)[x] <= 1
  {
    if |s| > 0 {
      var n := |s| - 1;
      assert s == s[..n] + [s[n]];
      assert NoDuplicates(s[..n]);
      NoDuplicatesCount(s[..n], x);
      if s[n] == x {
        assert x !in s[..n];
      }
    }
  }

  /** An element at two positions occurs at least twice. */
  lemma DuplicateCount<T>(s: seq<T>, i: int, j: int)
    requires 0 <= i < j < |s| && s[i] == s[j]
    ensures multiset(s)[s[i]] >= 2
  {
    assert s == s[..j] + [s[j]] + s[j + 1..];
    assert s[..j][i] == s[i];
    assert s[i] in multiset(s[..j]);
  }

  /** A permutation of a list without duplicates has none either. */
  lemma NoDuplicatesPermutation<T>(a: seq<T>, b: seq<T>)
    requires multiset(a) == multiset(b) && NoDuplicates(a)
    ensures NoDuplicates(b)
  {
    forall i, j | 0 <= i < j < |b| ensures b[i] != b[j] {
      if b[i] == b[j] {
        DuplicateCount(b, i, j);
        NoDuplicatesCount(a, b[i]);
      }
    }
  }

  /** Permutations hold the same elements. */
  lemma PermutationMembers<T>(a: seq<T>, b: seq<T>)
    requires multiset(a) == multiset(b)
    ensures forall x :: x in a <==> x in b
  {
    forall x ensures x in a <==> x in b {
      assert x in a <==> x in multiset(a);
      assert x in b <==> x in multiset(b);
    }
  }

  /** `le` is total and transitive, as a `compareTo` on sort keys is. */
  ghost predicate TotalPreorder<T(!new)>(le: (T, T) -> bool) {
    && (forall a, b :: le(a, b) || le(b, a))
    && (forall a, b, c :: le(a, b) && le(b, c) ==> le(a, c))
  }

  ghost predicate Ascending<T>(s: seq<T>, le: (T, T) -> bool) {
    forall i, j :: 0 <= i < j < |s| ==> le(s[i], s[j])
  }

  ghost predicate Descending<T>(s: seq<T>, le: (T, T) -> bool) {
    forall i, j :: 0 <= i < j < |s| ==> le(s[j], s[i])
  }

  /** Appending an element no ascending neighbour is above keeps a list ascending. */
  lemma AscendingAppend<T>(s: seq<T>, x: T, le: (T, T) -> bool)
    requires Ascending(s, le)
    requires forall i :: 0 <= i < |s| ==> le(s[i], x)
    ensures Ascending(s + [x], le)
  {
  }

  /** Everything in an ascending list is below what its last element is below. */
  lemma BelowLast<T(!new)>(s: seq<T>, x: T, le: (T, T) -> bool)
    requires TotalPreorder(le) && Ascending(s, le)
    requires |s| > 0 && le(s[|s| - 1], x)
    ensures forall i :: 0 <= i < |s| ==> le(s[i], x)
  {
    forall i | 0 <= i < |s| ensures le(s[i], x) {
      if i < |s| - 1 { assert le(s[i], s[|s| - 1]); }
    }
  }

  /** A bound on every element of a list holds for every element of a permutation of it. */
  lemma BoundedPermutation<T>(m: seq<T>, init: seq<T>, x: T, bound: T, le: (T, T) -> bool)
    requires multiset(m) == multiset(init) + multiset{x}
    requires le(x, bound) && forall i :: 0 <= i < |init| ==> le(init[i], bound)
    ensures forall i :: 0 <= i < |m| ==> le(m[i], bound)
  {
    forall i | 0 <= i < |m| ensures le(m[i], bound) {
      var y := m[i];
      assert y in multiset(m);
      if y != x {
        assert y in multiset(init);
        var k :| 0 <= k < |init| && init[k] == y;
      }
    }
  }

  /** Inserts `x` into an ascending list after every element not above it. */
  function Insert<T(!new)>(s: seq<T>, x: T, le: (T, T) -> bool): (r: seq<T>)
    requires TotalPreorder(le) && Ascending(s, le)
    ensures multiset(r) == multiset(s) + multiset{x}
    ensures Ascending(r, le)
  {
    if |s| == 0 then
      [x]
    else if le(s[|s| - 1], x) then
      BelowLast(s, x, le);
      AscendingAppend(s, x, le);
      s + [x]
    else
      var last := s[|s| - 1];
      var init := s[..|s| - 1];
      assert s == init + [last];
      var m := Insert(init, x, le);
      assert le(x, last);
      BoundedPermutation(m, init, x, last, le);
      AscendingAppend(m, last, le);
      m + [last]
  }

  /** `sortedBy`: a stable ascending sort (insertion sort, element by element). */
  function SortAscending<T(!new)>(xs: seq<T>, le: (T, T) -> bool): (r: seq<T>)
    requires TotalPreorder(le)
    ensures multiset(r) == multiset(xs)
    ensures Ascending(r, le)
  {
    if |xs| == 0 then []
    else
      assert xs == xs[..|xs| - 1] + [xs[|xs| - 1]];
      Insert(SortAscending(xs[..|xs| - 1], le), xs[|xs| - 1], le)
  }

  /** `reversed()`. */
  function Reverse<T>(xs: seq<T>): (r: seq<T>)
    ensures |r| == |xs|
    ensures forall i :: 0 <= i < |xs| ==> r[i] == xs[|xs| - 1 - i]
    ensures multiset(r) == multiset(xs)
  {
    if |xs| == 0 then []
    else
      assert xs == [xs[0]] + xs[1..];
      Reverse(xs[1..]) + [xs[0]]
  }

  /** `sortedBy { key }.reversed()`: the same elements, in non-increasing order. */
  function SortDescending<T(!new)>(xs: seq<T>, le: (T, T) -> bool): (r: seq<T>)
    requires TotalPreorder(le)
    ensures multiset(r) == multiset(xs)
    ensures Descending(r, le)
  {
    var a := SortAscending(xs, le);
    ReverseAscending(a, le);
    Reverse(a)
  }

  /** Reversing an ascending list gives a descending one. */
  lemma ReverseAscending<T>(a: seq<T>, le: (T, T) -> bool)
    requires Ascending(a, le)
    ensures Descending(Reverse(a), le)
  {
    var r := Reverse(a);
    forall i, j | 0 <= i < j < |r| ensures le(r[j], r[i]) {
      assert r[j] == a[|a| - 1 - j];
      assert r[i] == a[|a| - 1 - i];
    }
  }
}
