/** Ranking by score, highest first, keeping the input order among equal
    scores: Python's stable `sorted(items, key=score, reverse=True)`. */
module Ranking {
  import opened Content

  /** Scores never increase along `s`. */
  predicate SortedDesc(s: seq<Item>) {
    forall i, j :: 0 <= i < j < |s| ==> Key(s[i]) >= Key(s[j])
  }

  /** The subsequence of `s` whose items have sort key `k`, in order. */
  function WithKey(s: seq<Item>, k: int): seq<Item> {
    if |s| == 0 then []
    else (if Key(s[0]) == k then [s[0]] else []) + WithKey(s[1..], k)
  }

  /** `out` is what a stable descending sort of `s` must produce: it is
      ordered by key, and for every key the items carrying it appear in the
      same order as in `s` (so `out` is also a permutation of `s`). */
  ghost predicate IsStableDescSortOf(out: seq<Item>, s: seq<Item>) {
    && SortedDesc(out)
    && forall k :: WithKey(out, k) == WithKey(s, k)
  }

  lemma {:induction false} WithKeyMembers(s: seq<Item>, k: int, y: Item)
    ensures y in WithKey(s, k) <==> y in s && Key(y) == k
    decreases |s|
  {
    if |s| > 0 {
      WithKeyMembers(s[1..], k, y);
      assert s == [s[0]] + s[1..];
    }
  }

  lemma SortedCons(x: Item, t: seq<Item>)
    requires SortedDesc(t)
    requires forall y :: y in t ==> Key(y) <= Key(x)
    ensures SortedDesc([x] + t)
  {
    forall i, j | 0 <= i < j < |[x] + t|
      ensures Key(([x] + t)[i]) >= Key(([x] + t)[j])
    {
      if i > 0 {
        assert ([x] + t)[i] == t[i - 1];
      }
      assert ([x] + t)[j] == t[j - 1];
      assert t[j - 1] in t;
    }
  }

  lemma WithKeyCons(x: Item, s: seq<Item>, k: int)
    ensures WithKey([x] + s, k) == (if Key(x) == k then [x] else []) + WithKey(s, k)
  {
    assert ([x] + s)[1..] == s;
  }

  /** Insert `x` in front of the first item whose key is not above its own.
      `x` came earlier in the input than everything in `s`, so among equal
      keys it goes first. */
  function Insert(x: Item, s: seq<Item>): seq<Item> {
    if |s| == 0 then [x]
    else if Key(s[0]) <= Key(x) then [x] + s
    else [s[0]] + Insert(x, s[1..])
  }

  /** Inserting adds exactly the one item. */
  lemma {:induction false} InsertPermutes(x: Item, s: seq<Item>)
    ensures multiset(Insert(x, s)) == multiset(s) + multiset{x}
    ensures |Insert(x, s)| == |s| + 1
    decreases |s|
  {
    if |s| > 0 && Key(s[0]) > Key(x) {
      InsertPermutes(x, s[1..]);
      assert s == [s[0]] + s[1..];
    }
  }

  /** Inserting into a ranked list keeps it ranked. */
  lemma {:induction false} InsertSorted(x: Item, s: seq<Item>)
    requires SortedDesc(s)
    ensures SortedDesc(Insert(x, s))
    decreases |s|
  {
    if |s| == 0 {
    } else if Key(s[0]) <= Key(x) {
      forall y | y in s ensures Key(y) <= Key(x) {
        var i :| 0 <= i < |s| && s[i] == y;
        assert i == 0 || Key(s[0]) >= Key(s[i]);
      }
      SortedCons(x, s);
    } else {
      var t := Insert(x, s[1..]);
      InsertSorted(x, s[1..]);
      InsertPermutes(x, s[1..]);
      forall y | y in t ensures Key(y) <= Key(s[0]) {
        assert y in multiset(t);
        if y != x {
          assert y in multiset(s[1..]);
          var i :| 0 <= i < |s[1..]| && s[1..][i] == y;
          assert s[i + 1] == y;
        }
      }
      SortedCons(s[0], t);
    }
  }

  /** Inserting `x` adds it in front of the items of equal key and leaves
      the subsequence of every other key alone. */
  lemma {:induction false} InsertWithKey(x: Item, s: seq<Item>, k: int)
    ensures WithKey(Insert(x, s), k) == (if Key(x) == k then [x] else []) + WithKey(s, k)
    decreases |s|
  {
    if |s| == 0 {
      WithKeyCons(x, [], k);
    } else if Key(s[0]) <= Key(x) {
      WithKeyCons(x, s, k);
    } else {
      InsertWithKey(x, s[1..], k);
      InsertWithKeyStep(s[0], x, Insert(x, s[1..]), WithKey(s[1..], k), k);
    }
  }

  /** The recursive step of `InsertWithKey`: passing over an item of higher
      key than `x` does not disturb where `x` lands among its key. */
  lemma InsertWithKeyStep(a: Item, x: Item, t: seq<Item>, w: seq<Item>, k: int)
    requires Key(a) > Key(x)
    requires WithKey(t, k) == (if Key(x) == k then [x] else []) + w
    ensures WithKey([a] + t, k) == (if Key(x) == k then [x] else []) + ((if Key(a) == k then [a] else []) + w)
  {
    WithKeyCons(a, t, k);
    if Key(x) == k {
      assert WithKey([a] + t, k) == WithKey(t, k);
    } else if Key(a) == k {
      assert WithKey([a] + t, k) == [a] + w;
    } else {
      assert WithKey([a] + t, k) == w;
    }
  }

  /** Insertion sort, stable and descending by key. */
  function SortByScore(s: seq<Item>): (r: seq<Item>)
    ensures SortedDesc(r)
    ensures forall k :: WithKey(r, k) == WithKey(s, k)
    ensures multiset(r) == multiset(s)
    ensures |r| == |s|
  {
    if |s| == 0 then []
    else
      var t := SortByScore(s[1..]);
      SortStep(s, t);
      Insert(s[0], t)
  }

  /** The step of the insertion sort: inserting the head into the sorted
      tail sorts the whole list. */
  lemma SortStep(s: seq<Item>, t: seq<Item>)
    requires |s| > 0
    requires SortedDesc(t)
    requires forall k :: WithKey(t, k) == WithKey(s[1..], k)
    requires multiset(t) == multiset(s[1..])
    requires |t| == |s| - 1
    ensures |Insert(s[0], t)| == |s|
    ensures SortedDesc(Insert(s[0], t))
    ensures forall k :: WithKey(Insert(s[0], t), k) == WithKey(s, k)
    ensures multiset(Insert(s[0], t)) == multiset(s)
  {
    InsertSorted(s[0], t);
    InsertPermutes(s[0], t);
    assert s == [s[0]] + s[1..];
    forall k ensures WithKey(Insert(s[0], t), k) == WithKey(s, k) {
      InsertWithKey(s[0], t, k);
    }
  }

  /** The first item of a ranked list has the highest key. */
  lemma HeadIsMax(a: seq<Item>, y: Item)
    requires SortedDesc(a) && y in a
    ensures Key(y) <= Key(a[0])
  {
    var i :| 0 <= i < |a| && a[i] == y;
    assert i == 0 || Key(a[0]) >= Key(a[i]);
  }

  /** If `b` has the same per-key subsequences as the ranked list `a`, no
      item of `b` has a key above that of `a`'s head. */
  lemma HeadKeyBound(a: seq<Item>, b: seq<Item>)
    requires |a| > 0 && |b| > 0
    requires SortedDesc(a)
    requires WithKey(a, Key(b[0])) == WithKey(b, Key(b[0]))
    ensures Key(b[0]) <= Key(a[0])
  {
    WithKeyMembers(b, Key(b[0]), b[0]);
    WithKeyMembers(a, Key(b[0]), b[0]);
    HeadIsMax(a, b[0]);
  }

  /** Two lists with the same per-key subsequences whose heads share a key
      have the same head, and their tails again have the same per-key
      subsequences. */
  lemma SameHeads(a: seq<Item>, b: seq<Item>)
    requires |a| > 0 && |b| > 0
    requires Key(a[0]) == Key(b[0])
    requires forall k :: WithKey(a, k) == WithKey(b, k)
    ensures a[0] == b[0]
    ensures forall k :: WithKey(a[1..], k) == WithKey(b[1..], k)
  {
    var k0 := Key(a[0]);
    WithKeyTake(a);
    WithKeyTake(b);
    assert WithKey(a, k0) == WithKey(b, k0);
    assert a[0] == WithKey(a, k0)[0];
    forall k
      ensures WithKey(a[1..], k) == WithKey(b[1..], k)
    {
      assert WithKey(a, k) == WithKey(b, k);
      if k == k0 {
        assert WithKey(a, k)[1..] == WithKey(a[1..], k);
        assert WithKey(b, k)[1..] == WithKey(b[1..], k);
      } else {
        WithKeySkip(a, k);
        WithKeySkip(b, k);
      }
    }
  }

  lemma WithKeyTake(s: seq<Item>)
    requires |s| > 0
    ensures WithKey(s, Key(s[0])) == [s[0]] + WithKey(s[1..], Key(s[0]))
  {
  }

  lemma WithKeySkip(s: seq<Item>, k: int)
    requires |s| > 0 && Key(s[0]) != k
    ensures WithKey(s, k) == WithKey(s[1..], k)
  {
    assert [] + WithKey(s[1..], k) == WithKey(s[1..], k);
  }

  /** Only the empty list has only empty per-key subsequences. */
  lemma NoItemsNoFilters(a: seq<Item>, b: seq<Item>)
    requires |a| == 0
    requires forall k :: WithKey(a, k) == WithKey(b, k)
    ensures |b| == 0
  {
    if |b| > 0 {
      WithKeyTake(b);
    }
  }

  /** A stable descending sort has exactly one possible result: two
      key-ordered sequences with the same per-key subsequences are equal. */
  lemma {:induction false} StableSortUnique(a: seq<Item>, b: seq<Item>)
    requires SortedDesc(a) && SortedDesc(b)
    requires forall k :: WithKey(a, k) == WithKey(b, k)
    ensures a == b
    decreases |a|
  {
    if |a| == 0 {
      NoItemsNoFilters(a, b);
    } else if |b| == 0 {
      NoItemsNoFilters(b, a);
    } else {
      HeadKeyBound(a, b);
      HeadKeyBound(b, a);
      SameHeads(a, b);
      StableSortUnique(a[1..], b[1..]);
      assert a == [a[0]] + a[1..];
      assert b == [b[0]] + b[1..];
    }
  }

  /** `SortByScore` is the stable descending sort: any arrangement meeting
      the stable-sort characterisation is exactly its result. */
  lemma SortByScoreIsTheStableSort(s: seq<Item>, out: seq<Item>)
    requires IsStableDescSortOf(out, s)
    ensures out == SortByScore(s)
  {
    StableSortUnique(out, SortByScore(s));
  }
}
