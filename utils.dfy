/** The random helpers of the reward game (src/stores/glupo/utils.ts), with the uniform
    draw `u` in [0, 1) passed in instead of read from the host. */
module Utils {
  import opened Types

  /** `u * w`: a draw in [0, 1) scales a non-negative width to at most that width,
      strictly less when the width is positive. */
  function Scaled(u: Unit, w: real): (s: real)
    ensures w >= 0.0 ==> 0.0 <= s <= w
    ensures w > 0.0 ==> s < w
    ensures w == 0.0 ==> s == 0.0
  {
    if w > 0.0 then
      assert (1.0 - u) * w > 0.0;
      u * w
    else
      u * w
  }

  /** A real uniformly spread over [min, max) as `u` ranges over [0, 1). */
  function RandomRange(u: Unit, min: real, max: real): (r: real)
    ensures min < max ==> min <= r < max
    ensures min == max ==> r == min
  {
    Scaled(u, max - min) + min
  }

  /** An integer in [min, max], both ends included. */
  function RandomRangeInt(u: Unit, min: int, max: int): (r: int)
    ensures min <= max ==> min <= r <= max
  {
    Floor(RandomRange(u, min as real, (max + 1) as real))
  }

  /** Every integer of [min, max] is the outcome of some draw. */
  lemma RandomRangeIntReachesAll(min: int, max: int, k: int)
    requires min <= k <= max
    ensures exists u: Unit :: RandomRangeInt(u, min, max) == k
  {
    var width := (max + 1 - min) as real;
    var u: Unit := (k - min) as real / width;
    assert Scaled(u, width) == (k - min) as real;
    assert RandomRange(u, min as real, (max + 1) as real) == k as real;
    assert RandomRangeInt(u, min, max) == k;
  }

  /** An element picked uniformly; an empty list has nothing to give. */
  function Choose<T>(items: seq<T>, u: Unit): (r: Option<T>)
    ensures r.None? <==> |items| == 0
    ensures r.Some? ==> r.value in items
  {
    if |items| == 0 then None else Some(items[RandomRangeInt(u, 0, |items| - 1)])
  }

  /** Every element of a non-empty list can be chosen. */
  lemma ChooseReachesAll<T>(items: seq<T>, i: nat)
    requires i < |items|
    ensures exists u: Unit :: Choose(items, u) == Some(items[i])
  {
    RandomRangeIntReachesAll(0, |items| - 1, i);
    var u: Unit :| RandomRangeInt(u, 0, |items| - 1) == i;
    assert Choose(items, u) == Some(items[i]);
  }

  /** Sum of a list of weights. */
  function Sum(ws: seq<real>): real
  {
    if |ws| == 0 then 0.0 else ws[0] + Sum(ws[1..])
  }

  lemma {:induction false} SumAppend(ws: seq<real>, w: real)
    ensures Sum(ws + [w]) == Sum(ws) + w
  {
    if |ws| == 0 {
      assert ws + [w] == [w];
    } else {
      assert (ws + [w])[1..] == ws[1..] + [w];
      SumAppend(ws[1..], w);
    }
  }

  /** The index the selection loop stops at for the draw `r`: the first `k` whose weight
      reaches what is left of `r` once the earlier weights are subtracted, or |ws| when
      no weight does. */
  function FirstReached(ws: seq<real>, r: real): (k: nat)
    ensures k <= |ws|
    ensures k < |ws| ==> r - Sum(ws[..k]) <= ws[k]
    ensures forall j :: 0 <= j < k ==> r - Sum(ws[..j]) > ws[j]
  {
    if |ws| == 0 then 0
    else if r <= ws[0] then 0
    else
      var k := 1 + FirstReached(ws[1..], r - ws[0]);
      PrefixSumShift(ws, k);
      forall j | 1 <= j < k ensures r - Sum(ws[..j]) > ws[j] {
        PrefixSumShift(ws, j);
      }
      k
  }

  /** A prefix sum splits off its first weight. */
  lemma PrefixSumShift(ws: seq<real>, j: nat)
    requires 1 <= j <= |ws|
    ensures Sum(ws[..j]) == ws[0] + Sum(ws[1..][..j - 1])
  {
    assert ws[..j][1..] == ws[1..][..j - 1];
  }

  /** When no weight reaches the draw, the draw exceeds the total. */
  lemma {:induction false} NoneReachedMeansAboveTotal(ws: seq<real>, r: real)
    requires FirstReached(ws, r) == |ws|
    ensures r > Sum(ws) || |ws| == 0
  {
    if |ws| > 0 {
      if |ws| > 1 {
        NoneReachedMeansAboveTotal(ws[1..], r - ws[0]);
      }
    }
  }

  /** With a non-negative total and a draw of `u * total`, some weight is always reached:
      the fall-back to the last item never fires. */
  lemma FallbackUnreachable(ws: seq<real>, u: Unit)
    requires |ws| > 0 && Sum(ws) >= 0.0
    ensures FirstReached(ws, Scaled(u, Sum(ws))) < |ws|
  {
    var r := Scaled(u, Sum(ws));
    if FirstReached(ws, r) == |ws| {
      NoneReachedMeansAboveTotal(ws, r);
      assert false;
    }
  }

  /** The weights of `items`, in order. */
  function Weights<T>(items: seq<T>, weight: T -> real): (ws: seq<real>)
    ensures |ws| == |items|
    ensures forall i :: 0 <= i < |items| ==> ws[i] == weight(items[i])
  {
    seq(|items|, i requires 0 <= i < |items| => weight(items[i]))
  }

  /** Weighted selection as a value: the draw `u * total` walks the items, subtracting
      each weight it passes; the first item whose weight reaches what is left is the
      pick, and the last item is the fall-back. */
  function WeightedPick<T>(items: seq<T>, weight: T -> real, u: Unit): (r: Option<T>)
    ensures r.None? <==> |items| == 0
    ensures r.Some? ==> r.value in items
  {
    if |items| == 0 then None
    else
      var ws := Weights(items, weight);
      var k := FirstReached(ws, Scaled(u, Sum(ws)));
      Some(if k < |items| then items[k] else items[|items| - 1])
  }

  /** Non-negative weights sum to a non-negative total. */
  lemma {:induction false} SumNonNegative(ws: seq<real>)
    requires forall i :: 0 <= i < |ws| ==> ws[i] >= 0.0
    ensures Sum(ws) >= 0.0
  {
    if |ws| > 0 {
      assert forall i :: 0 <= i < |ws[1..]| ==> ws[1..][i] == ws[i + 1];
      SumNonNegative(ws[1..]);
    }
  }

  /** With non-negative weights the pick is always the first item whose weight reaches
      the draw, never the fall-back, and every item before it was passed over. */
  lemma WeightedPickReaches<T>(items: seq<T>, weight: T -> real, u: Unit)
    requires |items| > 0
    requires forall i :: 0 <= i < |items| ==> weight(items[i]) >= 0.0
    ensures var ws := Weights(items, weight);
      var draw := Scaled(u, Sum(ws));
      var k := FirstReached(ws, draw);
      k < |items| && WeightedPick(items, weight, u) == Some(items[k])
      && draw - Sum(ws[..k]) <= ws[k]
      && forall j :: 0 <= j < k ==> draw - Sum(ws[..j]) > ws[j]
  {
    var ws := Weights(items, weight);
    SumNonNegative(ws);
    FallbackUnreachable(ws, u);
  }

  /** `weightedChoose`: the loops of the source, proved to pick what `WeightedPick` picks. */
  method WeightedChoose<T>(items: seq<T>, weight: T -> real, u: Unit) returns (r: Option<T>)
    ensures r == WeightedPick(items, weight, u)
  {
    var ws := Weights(items, weight);
    var total := 0.0;
    var n := 0;
    while n < |ws|
      invariant n <= |ws|
      invariant total == Sum(ws[..n])
    {
      SumAppend(ws[..n], ws[n]);
      assert ws[..n + 1] == ws[..n] + [ws[n]];
      total := total + ws[n];
      n := n + 1;
    }
    assert ws[..|ws|] == ws;
    var draw := Scaled(u, total);
    var left := draw;
    var i := 0;
    while i < |items|
      invariant i <= |items|
      invariant left == draw - Sum(ws[..i])
      invariant forall j :: 0 <= j < i ==> draw - Sum(ws[..j]) > ws[j]
    {
      if left <= ws[i] {
        FirstReachedIs(ws, draw, i);
        return Some(items[i]);
      }
      SumAppend(ws[..i], ws[i]);
      assert ws[..i + 1] == ws[..i] + [ws[i]];
      left := left - ws[i];
      i := i + 1;
    }
    if |items| == 0 {
      return None;
    }
    FirstReachedIs(ws, draw, |ws|);
    return Some(items[|items| - 1]);
  }

  /** The first index that reaches the draw is the one `FirstReached` names. */
  lemma FirstReachedIs(ws: seq<real>, r: real, k: nat)
    requires k <= |ws|
    requires forall j :: 0 <= j < k ==> r - Sum(ws[..j]) > ws[j]
    requires k < |ws| ==> r - Sum(ws[..k]) <= ws[k]
    ensures FirstReached(ws, r) == k
  {
  }

  /** `s` is ordered by ascending `key`. */
  predicate SortedByKey<T>(key: T -> nat, s: seq<T>)
  {
    forall i, j :: 0 <= i < j < |s| ==> key(s[i]) <= key(s[j])
  }

  /** `x` goes before the first element whose key is at least its own. `SortByKey`
      inserts each element into the sorted list of the elements after it, so putting
      `x` in front of its ties keeps equal keys in their input order. */
  function InsertByKey<T>(key: T -> nat, x: T, s: seq<T>): seq<T>
  {
    if |s| == 0 then [x]
    else if key(x) <= key(s[0]) then [x] + s
    else [s[0]] + InsertByKey(key, x, s[1..])
  }

  /** Sorting by a numeric key, stably, as `Array.prototype.sort` with a subtracting
      comparator does. */
  function SortByKey<T>(key: T -> nat, s: seq<T>): seq<T>
  {
    if |s| == 0 then [] else InsertByKey(key, s[0], SortByKey(key, s[1..]))
  }

  /** Inserting adds exactly `x`, and puts in front either `x` or the old front. */
  lemma {:induction false} InsertAddsOne<T>(key: T -> nat, x: T, s: seq<T>)
    ensures var r := InsertByKey(key, x, s);
      multiset(r) == multiset(s) + multiset{x} && |r| == |s| + 1
      && (r[0] == x || (|s| > 0 && r[0] == s[0]))
  {
    if |s| > 0 && key(x) > key(s[0]) {
      InsertAddsOne(key, x, s[1..]);
      assert s == [s[0]] + s[1..];
    }
  }

  /** Inserting into an ordered list keeps it ordered. */
  lemma {:induction false} InsertKeepsOrder<T>(key: T -> nat, x: T, s: seq<T>)
    requires SortedByKey(key, s)
    ensures SortedByKey(key, InsertByKey(key, x, s))
  {
    if |s| > 0 && key(x) > key(s[0]) {
      var rest := InsertByKey(key, x, s[1..]);
      assert SortedByKey(key, s[1..]);
      InsertKeepsOrder(key, x, s[1..]);
      InsertAddsOne(key, x, s[1..]);
      assert key(s[0]) <= key(rest[0]);
      var r := [s[0]] + rest;
      forall i, j | 0 <= i < j < |r| ensures key(r[i]) <= key(r[j]) {
        if i == 0 && j > 1 {
          assert key(rest[0]) <= key(rest[j - 1]);
        }
      }
    }
  }

  /** The sort orders its input and only permutes it. */
  lemma {:induction false} SortByKeySorts<T>(key: T -> nat, s: seq<T>)
    ensures SortedByKey(key, SortByKey(key, s))
    ensures multiset(SortByKey(key, s)) == multiset(s)
  {
    if |s| > 0 {
      SortByKeySorts(key, s[1..]);
      InsertKeepsOrder(key, s[0], SortByKey(key, s[1..]));
      InsertAddsOne(key, s[0], SortByKey(key, s[1..]));
      assert s == [s[0]] + s[1..];
    }
  }

  /** The elements of `s` whose key is `v`, in their order in `s`. */
  function WithKey<T>(key: T -> nat, v: nat, s: seq<T>): seq<T>
  {
    if |s| == 0 then []
    else (if key(s[0]) == v then [s[0]] else []) + WithKey(key, v, s[1..])
  }

  /** Inserting `x` puts it in front of every element of its own key and leaves the
      order among the elements of any key as it was. */
  lemma {:induction false} InsertWithKey<T>(key: T -> nat, v: nat, x: T, s: seq<T>)
    ensures WithKey(key, v, InsertByKey(key, x, s))
         == (if key(x) == v then [x] else []) + WithKey(key, v, s)
  {
    if |s| > 0 && key(x) > key(s[0]) {
      InsertWithKey(key, v, x, s[1..]);
      var r := InsertByKey(key, x, s);
      assert r[1..] == InsertByKey(key, x, s[1..]);
    } else if |s| > 0 {
      assert ([x] + s)[1..] == s;
    }
  }

  /** The sort is stable, as `Array.prototype.sort` is: the elements of any one key
      come out in the order they went in. */
  lemma {:induction false} SortIsStable<T>(key: T -> nat, v: nat, s: seq<T>)
    ensures WithKey(key, v, SortByKey(key, s)) == WithKey(key, v, s)
  {
    if |s| > 0 {
      SortIsStable(key, v, s[1..]);
      InsertWithKey(key, v, s[0], SortByKey(key, s[1..]));
    }
  }

  /** Sorting a list whose head costs no more than everything sorted after it keeps
      the head in front, ahead of its ties. */
  lemma SortCons<T>(key: T -> nat, x: T, s: seq<T>, sorted: seq<T>)
    requires SortByKey(key, s) == sorted && |sorted| > 0 && key(x) <= key(sorted[0])
    ensures SortByKey(key, [x] + s) == [x] + sorted
  {
    assert ([x] + s)[1..] == s;
  }
}
