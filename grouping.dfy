/**
 * Grouping a sequence by ISO week keys, stated once for any element type and
 * any key function: what a bucket is, what a correct grouping is, and what a
 * grouping guarantees. `Expenses` instantiates it with expenses keyed by the
 * ISO week of their date.
 */
module Grouping {

  /** An ISO `(year, week)` pair. */
  type WeekKey = (int, int)

  /** Lexicographic order on week keys, the order Python gives tuples. */
  predicate KeyBefore(a: WeekKey, b: WeekKey) {
    a.0 < b.0 || (a.0 == b.0 && a.1 < b.1)
  }

  predicate StrictlyIncreasing(ks: seq<WeekKey>) {
    forall i, j :: 0 <= i < j < |ks| ==> KeyBefore(ks[i], ks[j])
  }

  predicate Distinct(ks: seq<WeekKey>) {
    forall i, j :: 0 <= i < j < |ks| ==> ks[i] != ks[j]
  }

  /** The keys that occur in `xs`. */
  function KeySet<T(==)>(xs: seq<T>, key: T -> WeekKey): set<WeekKey> {
    set x | x in xs :: key(x)
  }

  /** The elements of `xs` whose key is `k`, in their order in `xs`. */
  function Bucket<T(==)>(xs: seq<T>, key: T -> WeekKey, k: WeekKey): seq<T> {
    if xs == [] then []
    else Bucket(xs[..|xs| - 1], key, k) + (if key(xs[|xs| - 1]) == k then [xs[|xs| - 1]] else [])
  }

  /** The positions in `xs` of the elements whose key is `k`, ascending. */
  function Positions<T(==)>(xs: seq<T>, key: T -> WeekKey, k: WeekKey): seq<nat> {
    if xs == [] then []
    else Positions(xs[..|xs| - 1], key, k) + (if key(xs[|xs| - 1]) == k then [|xs| - 1] else [])
  }

  function Keys<T(==)>(groups: seq<(WeekKey, seq<T>)>): seq<WeekKey> {
    seq(|groups|, i requires 0 <= i < |groups| => groups[i].0)
  }

  /**
   * `groups` is a correct grouping of `xs` by `key`: one entry per key that
   * occurs in `xs`, in strictly increasing key order, each holding that key's
   * elements in their order in `xs`.
   */
  ghost predicate IsGrouping<T>(xs: seq<T>, key: T -> WeekKey, groups: seq<(WeekKey, seq<T>)>) {
    && StrictlyIncreasing(Keys(groups))
    && (forall k :: k in Keys(groups) <==> k in KeySet(xs, key))
    && (forall i :: 0 <= i < |groups| ==> groups[i].1 == Bucket(xs, key, groups[i].0))
  }

  /** Sum of `w` over a sequence. */
  function Total<T(==)>(xs: seq<T>, w: T -> int): int {
    if xs == [] then 0 else Total(xs[..|xs| - 1], w) + w(xs[|xs| - 1])
  }

  /** Sum of `w` over all buckets of a grouping. */
  function GroupTotal<T(==)>(groups: seq<(WeekKey, seq<T>)>, w: T -> int): int {
    if groups == [] then 0 else Total(groups[0].1, w) + GroupTotal(groups[1..], w)
  }

  /** Weight 1 for every element, so that its total is a count. */
  function One<T>(x: T): int {
    1
  }

  /** Sum of the bucket sizes. */
  function CountAll<T(==)>(groups: seq<(WeekKey, seq<T>)>): nat {
    if groups == [] then 0 else |groups[0].1| + CountAll(groups[1..])
  }

  // ---------------------------------------------------------------------------
  // Sorting keys

  predicate IsEarliest(k: WeekKey, s: set<WeekKey>) {
    forall b :: b in s && b != k ==> KeyBefore(k, b)
  }

  /** Every non-empty finite set of week keys has an earliest key. */
  lemma {:induction false} EarliestExists(s: set<WeekKey>)
    requires s != {}
    ensures exists k :: k in s && IsEarliest(k, s)
    decreases |s|
  {
    var x :| x in s;
    if s != {x} {
      var rest := s - {x};
      EarliestExists(rest);
      var k :| k in rest && IsEarliest(k, rest);
      if KeyBefore(x, k) {
        forall b | b in s && b != x
          ensures KeyBefore(x, b)
        {
          assert b in rest;
        }
        assert IsEarliest(x, s);
      } else {
        forall b | b in s && b != k
          ensures KeyBefore(k, b)
        {
          if b != x { assert b in rest; }
        }
        assert IsEarliest(k, s);
      }
    } else {
      assert IsEarliest(x, s);
    }
  }

  /**
   * Sorts a set of keys (`sorted` over the dictionary's items, whose keys are
   * distinct): repeatedly takes the earliest remaining key. Only the result
   * of the sort matters here, not its algorithm.
   */
  method SortKeys(keys: set<WeekKey>) returns (sorted: seq<WeekKey>)
    ensures StrictlyIncreasing(sorted)
    ensures forall k :: k in sorted <==> k in keys
  {
    sorted := [];
    var rest := keys;
    while rest != {}
      invariant rest <= keys
      invariant forall k :: k in sorted <==> k in keys && k !in rest
      invariant StrictlyIncreasing(sorted)
      invariant forall a, b :: a in sorted && b in rest ==> KeyBefore(a, b)
      decreases |rest|
    {
      EarliestExists(rest);
      var k :| k in rest && IsEarliest(k, rest);
      sorted := sorted + [k];
      rest := rest - {k};
    }
  }

  // ---------------------------------------------------------------------------
  // Bucketing

  /**
   * The `defaultdict(list)` loop: appends each element to the bucket of its
   * key, creating the bucket on the key's first element.
   */
  method BucketBy<T(==)>(xs: seq<T>, key: T -> WeekKey) returns (buckets: map<WeekKey, seq<T>>)
    ensures buckets.Keys == KeySet(xs, key)
    ensures forall k :: k in buckets ==> buckets[k] == Bucket(xs, key, k)
  {
    buckets := map[];
    for i := 0 to |xs|
      invariant buckets.Keys == KeySet(xs[..i], key)
      invariant forall k :: k in buckets ==> buckets[k] == Bucket(xs[..i], key, k)
    {
      var x := xs[i];
      var k := key(x);
      var bucket := [];
      if k in buckets {
        bucket := buckets[k];
      } else {
        BucketOfAbsentKey(xs[..i], key, k);
      }
      assert xs[..i + 1] == xs[..i] + [x];
      BucketAppend(xs[..i], x, key);
      buckets := buckets[k := bucket + [x]];
    }
    assert xs[..|xs|] == xs;
  }

  lemma DistinctWhenIncreasing(ks: seq<WeekKey>)
    requires StrictlyIncreasing(ks)
    ensures Distinct(ks)
  {
    forall i, j | 0 <= i < j < |ks|
      ensures ks[i] != ks[j]
    {
      assert KeyBefore(ks[i], ks[j]);
    }
  }

  /** A sequence without repeated keys has as many distinct keys as elements. */
  lemma {:induction false} DistinctKeysCount(ks: seq<WeekKey>)
    requires Distinct(ks)
    ensures |set k | k in ks| == |ks|
  {
    if ks != [] {
      assert Distinct(ks[1..]);
      DistinctKeysCount(ks[1..]);
      assert (set k | k in ks) == {ks[0]} + (set k | k in ks[1..]);
      assert ks[0] !in (set k | k in ks[1..]);
    }
  }

  /** Strictly increasing key sequences with the same keys are equal. */
  lemma {:induction false} IncreasingKeysUnique(xs: seq<WeekKey>, ys: seq<WeekKey>)
    requires StrictlyIncreasing(xs) && StrictlyIncreasing(ys)
    requires forall k :: k in xs <==> k in ys
    ensures xs == ys
  {
    DistinctWhenIncreasing(xs);
    DistinctWhenIncreasing(ys);
    DistinctKeysCount(xs);
    DistinctKeysCount(ys);
    assert (set k | k in xs) == (set k | k in ys);
    if xs != [] {
      assert xs[0] == ys[0] by {
        assert xs[0] in ys && ys[0] in xs;
      }
      forall k
        ensures k in xs[1..] <==> k in ys[1..]
      {
        assert k in xs[1..] <==> k in xs && k != xs[0];
        assert k in ys[1..] <==> k in ys && k != ys[0];
      }
      IncreasingKeysUnique(xs[1..], ys[1..]);
      assert xs == [xs[0]] + xs[1..] && ys == [ys[0]] + ys[1..];
    }
  }

  // ---------------------------------------------------------------------------
  // Buckets

  lemma BucketAppend<T>(xs: seq<T>, x: T, key: T -> WeekKey)
    ensures KeySet(xs + [x], key) == KeySet(xs, key) + {key(x)}
    ensures forall k :: Bucket(xs + [x], key, k) == Bucket(xs, key, k) + (if key(x) == k then [x] else [])
  {
    assert (xs + [x])[..|xs|] == xs;
    assert forall y :: y in xs + [x] <==> y in xs || y == x;
  }

  lemma {:induction false} BucketOfAbsentKey<T>(xs: seq<T>, key: T -> WeekKey, k: WeekKey)
    requires k !in KeySet(xs, key)
    ensures Bucket(xs, key, k) == []
  {
    if xs != [] {
      var init := xs[..|xs| - 1];
      assert xs == init + [xs[|xs| - 1]];
      BucketAppend(init, xs[|xs| - 1], key);
      BucketOfAbsentKey(init, key, k);
    }
  }

  /** A bucket holds exactly the elements of its key, and is non-empty exactly when the key occurs. */
  lemma {:induction false} BucketMembership<T>(xs: seq<T>, key: T -> WeekKey, k: WeekKey)
    ensures forall x :: x in Bucket(xs, key, k) <==> x in xs && key(x) == k
    ensures k in KeySet(xs, key) <==> |Bucket(xs, key, k)| > 0
  {
    if xs != [] {
      var init, last := xs[..|xs| - 1], xs[|xs| - 1];
      assert xs == init + [last];
      BucketAppend(init, last, key);
      BucketMembership(init, key, k);
    }
  }

  /**
   * A bucket keeps the input order: its j-th element is the input's
   * `Positions(xs, key, k)[j]`-th, those positions increase, and they are
   * exactly the positions whose element has key `k`.
   */
  lemma {:induction false} BucketKeepsInputOrder<T>(xs: seq<T>, key: T -> WeekKey, k: WeekKey)
    ensures |Positions(xs, key, k)| == |Bucket(xs, key, k)|
    ensures forall j :: 0 <= j < |Positions(xs, key, k)| ==>
              Positions(xs, key, k)[j] < |xs| && Bucket(xs, key, k)[j] == xs[Positions(xs, key, k)[j]]
    ensures forall j1, j2 :: 0 <= j1 < j2 < |Positions(xs, key, k)| ==>
              Positions(xs, key, k)[j1] < Positions(xs, key, k)[j2]
    ensures forall i :: 0 <= i < |xs| ==> (key(xs[i]) == k <==> i in Positions(xs, key, k))
  {
    if xs != [] {
      var init := xs[..|xs| - 1];
      BucketKeepsInputOrder(init, key, k);
      var p, b := Positions(init, key, k), Bucket(init, key, k);
      assert forall i :: 0 <= i < |init| ==> xs[i] == init[i];
      assert forall j :: 0 <= j < |p| ==> p[j] < |init|;
    }
  }

  // ---------------------------------------------------------------------------
  // What a grouping guarantees

  lemma KeysAt<T>(groups: seq<(WeekKey, seq<T>)>)
    ensures |Keys(groups)| == |groups|
    ensures forall i :: 0 <= i < |groups| ==> Keys(groups)[i] == groups[i].0
  {
  }

  /**
   * The grouping partitions the input: every bucket is non-empty and holds
   * only elements of its own key, and every input element lies in exactly
   * one bucket.
   */
  lemma GroupingPartitions<T>(xs: seq<T>, key: T -> WeekKey, groups: seq<(WeekKey, seq<T>)>)
    requires IsGrouping(xs, key, groups)
    ensures forall i :: 0 <= i < |groups| ==> |groups[i].1| > 0
    ensures forall i, x :: 0 <= i < |groups| ==> (x in groups[i].1 <==> x in xs && key(x) == groups[i].0)
    ensures forall x :: x in xs ==> exists i :: 0 <= i < |groups| && x in groups[i].1
    ensures forall x, i, j :: 0 <= i < |groups| && 0 <= j < |groups| && x in groups[i].1 && x in groups[j].1 ==> i == j
  {
    KeysAt(groups);
    DistinctWhenIncreasing(Keys(groups));
    forall i | 0 <= i < |groups|
      ensures |groups[i].1| > 0
      ensures forall x :: x in groups[i].1 <==> x in xs && key(x) == groups[i].0
    {
      BucketMembership(xs, key, groups[i].0);
    }
    forall x | x in xs
      ensures exists i :: 0 <= i < |groups| && x in groups[i].1
    {
      assert key(x) in KeySet(xs, key);
      var i :| 0 <= i < |groups| && Keys(groups)[i] == key(x);
      assert x in groups[i].1;
    }
  }

  /** One entry per distinct key of the input. */
  lemma GroupingSize<T>(xs: seq<T>, key: T -> WeekKey, groups: seq<(WeekKey, seq<T>)>)
    requires IsGrouping(xs, key, groups)
    ensures |groups| == |KeySet(xs, key)|
  {
    DistinctWhenIncreasing(Keys(groups));
    DistinctKeysCount(Keys(groups));
    assert (set k | k in Keys(groups)) == KeySet(xs, key);
  }

  /** Empty input: the only grouping is empty. */
  lemma EmptyInputHasNoGroups<T>(key: T -> WeekKey, groups: seq<(WeekKey, seq<T>)>)
    requires IsGrouping([], key, groups)
    ensures groups == []
  {
    GroupingSize([], key, groups);
    assert KeySet([], key) == {};
  }

  /** The grouping of an input is unique, so it pins the result down completely. */
  lemma GroupingUnique<T>(xs: seq<T>, key: T -> WeekKey, a: seq<(WeekKey, seq<T>)>, b: seq<(WeekKey, seq<T>)>)
    requires IsGrouping(xs, key, a) && IsGrouping(xs, key, b)
    ensures a == b
  {
    IncreasingKeysUnique(Keys(a), Keys(b));
    KeysAt(a);
    KeysAt(b);
  }

  /** Three elements whose first two share a key that precedes the third's form two groups. */
  lemma GroupingOfThree<T>(a: T, b: T, c: T, key: T -> WeekKey, k1: WeekKey, k2: WeekKey)
    requires key(a) == k1 && key(b) == k1 && key(c) == k2 && KeyBefore(k1, k2)
    ensures IsGrouping([a, b, c], key, [(k1, [a, b]), (k2, [c])])
  {
    BucketAppend([], a, key);
    assert [] + [a] == [a] && [a] + [b] == [a, b] && [a, b] + [c] == [a, b, c];
    BucketAppend([a], b, key);
    BucketAppend([a, b], c, key);
    assert Keys([(k1, [a, b]), (k2, [c])]) == [k1, k2];
  }

  /** Two elements with the same key form a single group. */
  lemma GroupingOfTwo<T>(a: T, b: T, key: T -> WeekKey, k: WeekKey)
    requires key(a) == k && key(b) == k
    ensures IsGrouping([a, b], key, [(k, [a, b])])
  {
    BucketAppend([], a, key);
    assert [] + [a] == [a] && [a] + [b] == [a, b];
    BucketAppend([a], b, key);
    assert Keys([(k, [a, b])]) == [k];
  }

  // ---------------------------------------------------------------------------
  // Conservation of sums

  /** Sum over the keys `ks` of the totals of their buckets. */
  function KeysTotal<T(==)>(xs: seq<T>, key: T -> WeekKey, ks: seq<WeekKey>, w: T -> int): int {
    if ks == [] then 0 else Total(Bucket(xs, key, ks[0]), w) + KeysTotal(xs, key, ks[1..], w)
  }

  lemma TotalAppend<T>(xs: seq<T>, x: T, w: T -> int)
    ensures Total(xs + [x], w) == Total(xs, w) + w(x)
  {
    assert (xs + [x])[..|xs|] == xs;
  }

  lemma {:induction false} KeysTotalStep<T>(xs: seq<T>, x: T, key: T -> WeekKey, ks: seq<WeekKey>, w: T -> int)
    requires Distinct(ks)
    ensures KeysTotal(xs + [x], key, ks, w) == KeysTotal(xs, key, ks, w) + (if key(x) in ks then w(x) else 0)
  {
    if ks != [] {
      var k0, rest := ks[0], ks[1..];
      assert Distinct(rest);
      KeysTotalStep(xs, x, key, rest, w);
      assert Total(Bucket(xs + [x], key, k0), w)
          == Total(Bucket(xs, key, k0), w) + (if key(x) == k0 then w(x) else 0) by {
        BucketAppend(xs, x, key);
        if key(x) == k0 {
          TotalAppend(Bucket(xs, key, k0), x, w);
        } else {
          assert Bucket(xs + [x], key, k0) == Bucket(xs, key, k0) + [];
          assert Bucket(xs, key, k0) + [] == Bucket(xs, key, k0);
        }
      }
      assert key(x) == k0 ==> key(x) !in rest by {
        if key(x) in rest {
          var j :| 0 <= j < |rest| && rest[j] == key(x);
          assert ks[j + 1] == key(x);
        }
      }
      assert key(x) in ks <==> key(x) == k0 || key(x) in rest by {
        assert ks == [k0] + rest;
      }
    }
  }

  lemma {:induction false} KeysTotalOfEmpty<T>(key: T -> WeekKey, ks: seq<WeekKey>, w: T -> int)
    ensures KeysTotal([], key, ks, w) == 0
  {
    if ks != [] {
      KeysTotalOfEmpty(key, ks[1..], w);
    }
  }

  /** Summing the buckets of distinct keys that cover every key of the input gives the input's sum. */
  lemma {:induction false} KeysTotalCovers<T>(xs: seq<T>, key: T -> WeekKey, ks: seq<WeekKey>, w: T -> int)
    requires Distinct(ks)
    requires forall k :: k in KeySet(xs, key) ==> k in ks
    ensures KeysTotal(xs, key, ks, w) == Total(xs, w)
  {
    if xs == [] {
      KeysTotalOfEmpty(key, ks, w);
    } else {
      var init, last := xs[..|xs| - 1], xs[|xs| - 1];
      assert xs == init + [last];
      BucketAppend(init, last, key);
      KeysTotalCovers(init, key, ks, w);
      KeysTotalStep(init, last, key, ks, w);
    }
  }

  lemma {:induction false} GroupTotalIsKeysTotal<T>(xs: seq<T>, key: T -> WeekKey, groups: seq<(WeekKey, seq<T>)>, w: T -> int)
    requires forall i :: 0 <= i < |groups| ==> groups[i].1 == Bucket(xs, key, groups[i].0)
    ensures GroupTotal(groups, w) == KeysTotal(xs, key, Keys(groups), w)
  {
    if groups != [] {
      GroupTotalIsKeysTotal(xs, key, groups[1..], w);
      assert Keys(groups[1..]) == Keys(groups)[1..];
    }
  }

  /** Any per-element quantity summed over the buckets equals its sum over the input. */
  lemma GroupingConserves<T>(xs: seq<T>, key: T -> WeekKey, groups: seq<(WeekKey, seq<T>)>, w: T -> int)
    requires IsGrouping(xs, key, groups)
    ensures GroupTotal(groups, w) == Total(xs, w)
  {
    DistinctWhenIncreasing(Keys(groups));
    GroupTotalIsKeysTotal(xs, key, groups, w);
    KeysTotalCovers(xs, key, Keys(groups), w);
  }

  lemma {:induction false} CountAllIsLength<T>(groups: seq<(WeekKey, seq<T>)>)
    ensures CountAll(groups) == GroupTotal(groups, One)
  {
    if groups != [] {
      TotalOfOnes(groups[0].1);
      CountAllIsLength(groups[1..]);
    }
  }

  lemma {:induction false} TotalOfOnes<T>(xs: seq<T>)
    ensures Total(xs, One) == |xs|
  {
    if xs != [] {
      TotalOfOnes(xs[..|xs| - 1]);
    }
  }

  /** Bucket sizes sum to the length of the input. */
  lemma GroupingConservesCount<T>(xs: seq<T>, key: T -> WeekKey, groups: seq<(WeekKey, seq<T>)>)
    requires IsGrouping(xs, key, groups)
    ensures CountAll(groups) == |xs|
  {
    GroupingConserves(xs, key, groups, One);
    CountAllIsLength(groups);
    TotalOfOnes(xs);
  }
}
