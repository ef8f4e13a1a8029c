/**
  `df.groupby(key)[col].agg(...)` over an integer key: one bucket per distinct key, in
  ascending key order, holding the sum and the number of the values that carry that key.
*/
module Grouping {
  import opened Wrappers

  /** One row reduced to its grouping key and the value being aggregated. */
  datatype Entry = Entry(key: int, value: nat)

  /** One group: its key, the sum of its values and how many rows it has. */
  datatype Bucket = Bucket(key: int, total: nat, count: nat)

  function SumOf(es: seq<Entry>): nat {
    if |es| == 0 then 0 else es[0].value + SumOf(es[1..])
  }

  /** Sum of the values carrying key `k`. */
  function SumAt(es: seq<Entry>, k: int): nat {
    if |es| == 0 then 0 else (if es[0].key == k then es[0].value else 0) + SumAt(es[1..], k)
  }

  /** Number of entries carrying key `k`. */
  function CountAt(es: seq<Entry>, k: int): nat {
    if |es| == 0 then 0 else (if es[0].key == k then 1 else 0) + CountAt(es[1..], k)
  }

  function KeySet(es: seq<Entry>): set<int> {
    if |es| == 0 then {} else {es[0].key} + KeySet(es[1..])
  }

  predicate Ascending(bs: seq<Bucket>) {
    forall i, j :: 0 <= i < j < |bs| ==> bs[i].key < bs[j].key
  }

  function BucketKeys(bs: seq<Bucket>): set<int> {
    if |bs| == 0 then {} else {bs[0].key} + BucketKeys(bs[1..])
  }

  /** The total of the bucket with key `k`, 0 when there is none. */
  function TotalAt(bs: seq<Bucket>, k: int): nat {
    if |bs| == 0 then 0 else if bs[0].key == k then bs[0].total else TotalAt(bs[1..], k)
  }

  /** The row count of the bucket with key `k`, 0 when there is none. */
  function CountIn(bs: seq<Bucket>, k: int): nat {
    if |bs| == 0 then 0 else if bs[0].key == k then bs[0].count else CountIn(bs[1..], k)
  }

  function Totals(bs: seq<Bucket>): nat {
    if |bs| == 0 then 0 else bs[0].total + Totals(bs[1..])
  }

  /** Adds one entry to an ascending bucket list: into its bucket, or as a new bucket in key order. */
  function Insert(bs: seq<Bucket>, e: Entry): (r: seq<Bucket>)
    requires Ascending(bs)
    ensures Ascending(r)
    ensures BucketKeys(r) == BucketKeys(bs) + {e.key}
    ensures forall k :: TotalAt(r, k) == TotalAt(bs, k) + (if k == e.key then e.value else 0)
    ensures forall k :: CountIn(r, k) == CountIn(bs, k) + (if k == e.key then 1 else 0)
    ensures Totals(r) == Totals(bs) + e.value
  {
    if |bs| == 0 then
      [Bucket(e.key, e.value, 1)]
    else if e.key < bs[0].key then
      BucketKeysBound(bs);
      LookupAbsent(bs, e.key);
      var r := [Bucket(e.key, e.value, 1)] + bs;
      assert r[1..] == bs;
      BucketKeysBoundBack(r);
      r
    else if e.key == bs[0].key then
      var r := [Bucket(e.key, bs[0].total + e.value, bs[0].count + 1)] + bs[1..];
      assert r[1..] == bs[1..];
      r
    else
      AscendingTail(bs);
      var rest := Insert(bs[1..], e);
      BucketKeysBound(bs);
      assert forall k :: k in BucketKeys(rest) ==> bs[0].key < k by {
        KeysAbove(bs[1..], bs[0].key);
      }
      BucketKeysBoundBack([bs[0]] + rest);
      var r := [bs[0]] + rest;
      assert r[1..] == rest;
      r
  }

  /** Every key of an ascending list is at least its first key. */
  lemma {:induction false} BucketKeysBound(bs: seq<Bucket>)
    requires Ascending(bs) && |bs| > 0
    ensures forall k :: k in BucketKeys(bs) ==> bs[0].key <= k
    ensures forall k :: k in BucketKeys(bs) <==> exists i :: 0 <= i < |bs| && bs[i].key == k
  {
    BucketKeysMembers(bs);
  }

  lemma {:induction false} BucketKeysMembers(bs: seq<Bucket>)
    ensures forall k :: k in BucketKeys(bs) <==> exists i :: 0 <= i < |bs| && bs[i].key == k
  {
    if |bs| > 0 {
      BucketKeysMembers(bs[1..]);
      forall k | k in BucketKeys(bs)
        ensures exists i :: 0 <= i < |bs| && bs[i].key == k
      {
        if k != bs[0].key {
          assert k in BucketKeys(bs[1..]);
          var i :| 0 <= i < |bs[1..]| && bs[1..][i].key == k;
          assert bs[i + 1].key == k;
        }
      }
      forall k | exists i :: 0 <= i < |bs| && bs[i].key == k
        ensures k in BucketKeys(bs)
      {
        var i :| 0 <= i < |bs| && bs[i].key == k;
        if i > 0 {
          assert bs[1..][i - 1].key == k;
        }
      }
    }
  }

  /** A list is ascending when its head is below every key of its ascending tail. */
  lemma {:induction false} BucketKeysBoundBack(r: seq<Bucket>)
    requires |r| > 0 && Ascending(r[1..])
    requires forall k :: k in BucketKeys(r[1..]) ==> r[0].key < k
    ensures Ascending(r)
  {
    BucketKeysMembers(r[1..]);
    forall j | 0 < j < |r|
      ensures r[0].key < r[j].key
    {
      assert r[1..][j - 1] == r[j];
      assert r[j].key in BucketKeys(r[1..]);
    }
  }

  lemma {:induction false} AscendingTail(bs: seq<Bucket>)
    requires Ascending(bs) && |bs| > 0
    ensures Ascending(bs[1..])
  {
    forall i, j | 0 <= i < j < |bs| - 1
      ensures bs[1..][i].key < bs[1..][j].key
    {
      assert bs[1..][i] == bs[i + 1] && bs[1..][j] == bs[j + 1];
    }
  }

  /** A key below all keys of an ascending list is not one of them. */
  lemma {:induction false} KeysAbove(bs: seq<Bucket>, x: int)
    requires forall i :: 0 <= i < |bs| ==> x < bs[i].key
    ensures forall k :: k in BucketKeys(bs) ==> x < k
  {
    if |bs| > 0 {
      assert forall i :: 0 <= i < |bs| - 1 ==> bs[1..][i] == bs[i + 1];
      KeysAbove(bs[1..], x);
    }
  }

  /** A key with no bucket has total and count 0. */
  lemma {:induction false} LookupAbsent(bs: seq<Bucket>, k: int)
    requires k !in BucketKeys(bs)
    ensures TotalAt(bs, k) == 0 && CountIn(bs, k) == 0
  {
    if |bs| > 0 {
      LookupAbsent(bs[1..], k);
    }
  }

  /** `groupby(key).agg(['sum', 'count'])` with pandas' default sorted keys. */
  function GroupBy(es: seq<Entry>): (bs: seq<Bucket>)
    ensures Ascending(bs)
    ensures BucketKeys(bs) == KeySet(es)
    ensures forall k :: TotalAt(bs, k) == SumAt(es, k)
    ensures forall k :: CountIn(bs, k) == CountAt(es, k)
    ensures Totals(bs) == SumOf(es)
  {
    if |es| == 0 then [] else Insert(GroupBy(es[1..]), es[0])
  }

  /** In an ascending list the lookup by key finds the bucket at each position. */
  lemma {:induction false} LookupAscending(bs: seq<Bucket>, i: int)
    requires Ascending(bs) && 0 <= i < |bs|
    ensures TotalAt(bs, bs[i].key) == bs[i].total
    ensures CountIn(bs, bs[i].key) == bs[i].count
  {
    if i > 0 {
      assert bs[0].key < bs[i].key;
      assert bs[1..][i - 1] == bs[i];
      LookupAscending(bs[1..], i - 1);
    }
  }

  /** A key is present exactly when some entry carries it. */
  lemma {:induction false} KeySetCount(es: seq<Entry>, k: int)
    ensures k in KeySet(es) <==> CountAt(es, k) > 0
    ensures k !in KeySet(es) ==> SumAt(es, k) == 0
  {
    if |es| > 0 {
      KeySetCount(es[1..], k);
    }
  }

  lemma {:induction false} KeySetMembers(es: seq<Entry>)
    ensures forall k :: k in KeySet(es) <==> exists i :: 0 <= i < |es| && es[i].key == k
  {
    if |es| > 0 {
      KeySetMembers(es[1..]);
      forall k | k in KeySet(es)
        ensures exists i :: 0 <= i < |es| && es[i].key == k
      {
        if k != es[0].key {
          assert k in KeySet(es[1..]);
          var i :| 0 <= i < |es[1..]| && es[1..][i].key == k;
          assert es[i + 1].key == k;
        }
      }
      forall k | exists i :: 0 <= i < |es| && es[i].key == k
        ensures k in KeySet(es)
      {
        var i :| 0 <= i < |es| && es[i].key == k;
        if i > 0 {
          assert es[1..][i - 1].key == k;
        }
      }
    }
  }

  /** Position-wise reading of `GroupBy`: each bucket holds the sum and count of its key's entries. */
  lemma {:induction false} GroupByBuckets(es: seq<Entry>)
    ensures forall i :: 0 <= i < |GroupBy(es)| ==>
      && GroupBy(es)[i].key in KeySet(es)
      && GroupBy(es)[i].total == SumAt(es, GroupBy(es)[i].key)
      && GroupBy(es)[i].count == CountAt(es, GroupBy(es)[i].key)
      && GroupBy(es)[i].count > 0
    ensures forall k :: k in KeySet(es) <==> exists i :: 0 <= i < |GroupBy(es)| && GroupBy(es)[i].key == k
    ensures |GroupBy(es)| == |KeySet(es)|
  {
    var bs := GroupBy(es);
    BucketKeysMembers(bs);
    forall i | 0 <= i < |bs|
      ensures bs[i].key in KeySet(es)
      ensures bs[i].total == SumAt(es, bs[i].key) && bs[i].count == CountAt(es, bs[i].key)
      ensures bs[i].count > 0
    {
      LookupAscending(bs, i);
      KeySetCount(es, bs[i].key);
    }
    AscendingCardinality(bs);
  }

  /** Every entry's key has a bucket. */
  lemma {:induction false} GroupByCovers(es: seq<Entry>, i: int)
    requires 0 <= i < |es|
    ensures exists j :: 0 <= j < |GroupBy(es)| && GroupBy(es)[j].key == es[i].key
  {
    KeySetMembers(es);
    assert es[i].key in KeySet(es);
    BucketKeysMembers(GroupBy(es));
  }

  /** One bucket of `GroupBy`: a key some entry carries, with that key's sum and count. */
  lemma {:induction false} GroupByAt(es: seq<Entry>, j: int)
    requires 0 <= j < |GroupBy(es)|
    ensures GroupBy(es)[j].key in KeySet(es)
    ensures GroupBy(es)[j].total == SumAt(es, GroupBy(es)[j].key)
    ensures GroupBy(es)[j].count == CountAt(es, GroupBy(es)[j].key) > 0
    ensures exists i :: 0 <= i < |es| && es[i].key == GroupBy(es)[j].key
  {
    var bs := GroupBy(es);
    LookupAscending(bs, j);
    BucketKeysMembers(bs);
    assert bs[j].key in BucketKeys(bs);
    KeySetCount(es, bs[j].key);
    KeySetMembers(es);
  }

  /** `GroupBy` has one bucket per distinct key. */
  lemma {:induction false} GroupByLength(es: seq<Entry>)
    ensures |GroupBy(es)| == |KeySet(es)|
  {
    AscendingCardinality(GroupBy(es));
  }

  /** An ascending list has as many buckets as distinct keys. */
  lemma {:induction false} AscendingCardinality(bs: seq<Bucket>)
    requires Ascending(bs)
    ensures |BucketKeys(bs)| == |bs|
  {
    if |bs| > 0 {
      AscendingTail(bs);
      AscendingCardinality(bs[1..]);
      KeysAbove(bs[1..], bs[0].key);
    }
  }

  /** The smallest value carrying key `k`. */
  function MinAt(es: seq<Entry>, k: int): (m: nat)
    requires k in KeySet(es)
    ensures forall i :: 0 <= i < |es| && es[i].key == k ==> m <= es[i].value
    ensures exists i :: 0 <= i < |es| && es[i].key == k && es[i].value == m
  {
    if es[0].key == k && (k !in KeySet(es[1..]) || es[0].value <= MinAt(es[1..], k)) then
      assert forall i :: 1 <= i < |es| ==> es[i] == es[1..][i - 1];
      if k in KeySet(es[1..]) then es[0].value else KeySetMembers(es[1..]); es[0].value
    else
      assert forall i :: 1 <= i < |es| ==> es[i] == es[1..][i - 1];
      var m := MinAt(es[1..], k);
      var j :| 0 <= j < |es| - 1 && es[1..][j].key == k && es[1..][j].value == m;
      assert es[j + 1].key == k;
      m
  }

  /** The largest value carrying key `k`. */
  function MaxAt(es: seq<Entry>, k: int): (m: nat)
    requires k in KeySet(es)
    ensures forall i :: 0 <= i < |es| && es[i].key == k ==> es[i].value <= m
    ensures exists i :: 0 <= i < |es| && es[i].key == k && es[i].value == m
  {
    if es[0].key == k && (k !in KeySet(es[1..]) || es[0].value >= MaxAt(es[1..], k)) then
      assert forall i :: 1 <= i < |es| ==> es[i] == es[1..][i - 1];
      if k in KeySet(es[1..]) then es[0].value else KeySetMembers(es[1..]); es[0].value
    else
      assert forall i :: 1 <= i < |es| ==> es[i] == es[1..][i - 1];
      var m := MaxAt(es[1..], k);
      var j :| 0 <= j < |es| - 1 && es[1..][j].key == k && es[1..][j].value == m;
      assert es[j + 1].key == k;
      m
  }

  /** Every bound on a group's values bounds its sum by the count times the bound. */
  lemma {:induction false} SumAtBounds(es: seq<Entry>, k: int, lo: nat, hi: nat)
    requires forall i :: 0 <= i < |es| && es[i].key == k ==> lo <= es[i].value <= hi
    ensures CountAt(es, k) * lo <= SumAt(es, k) <= CountAt(es, k) * hi
  {
    if |es| > 0 {
      assert forall i :: 1 <= i < |es| ==> es[i] == es[1..][i - 1];
      SumAtBounds(es[1..], k, lo, hi);
      if es[0].key == k {
        BoundsStep(CountAt(es[1..], k), SumAt(es[1..], k), es[0].value, lo, hi);
      }
    }
  }

  lemma {:induction false} BoundsStep(c: nat, s: nat, v: nat, lo: nat, hi: nat)
    requires c * lo <= s <= c * hi && lo <= v <= hi
    ensures (c + 1) * lo <= s + v <= (c + 1) * hi
  {
    assert (c + 1) * lo == c * lo + lo && (c + 1) * hi == c * hi + hi;
  }

  /** The arithmetic mean of a group. */
  function Mean(b: Bucket): real
    requires b.count > 0
  {
    b.total as real / b.count as real
  }

  /** A mean lies between the group's smallest and largest values. */
  lemma {:induction false} MeanBetween(total: nat, count: nat, lo: nat, hi: nat)
    requires count > 0 && count * lo <= total <= count * hi
    ensures lo as real <= total as real / count as real <= hi as real
  {
    var c := count as real;
    var m := total as real / c;
    assert m * c == total as real;
    RealScale(lo as real, m, c);
    RealScale(m, hi as real, c);
  }

  /** Scaling by a positive factor preserves order. */
  lemma {:induction false} RealScale(x: real, y: real, c: real)
    requires c > 0.0 && x * c <= y * c
    ensures x <= y
  {
  }
}
