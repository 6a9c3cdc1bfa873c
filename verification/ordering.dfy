/** The query semantics the routes rely on: SQLite's binary text order,
    `WHERE` as a filter, `ORDER BY … DESC`, and `LIMIT … OFFSET …`. */
module Ordering {

  /** Binary text order: code point by code point, a proper prefix first.
      For UTF-8 text this is the byte order SQLite compares with. */
  predicate LexLe(a: string, b: string) {
    if |a| == 0 then true
    else if |b| == 0 then false
    else if a[0] != b[0] then a[0] < b[0]
    else LexLe(a[1..], b[1..])
  }

  lemma {:induction false} LexLeTotal(a: string, b: string)
    ensures LexLe(a, b) || LexLe(b, a)
  {
    if |a| > 0 && |b| > 0 && a[0] == b[0] {
      LexLeTotal(a[1..], b[1..]);
    }
  }

  lemma {:induction false} LexLeTrans(a: string, b: string, c: string)
    requires LexLe(a, b) && LexLe(b, c)
    ensures LexLe(a, c)
  {
    if |a| > 0 && |b| > 0 && |c| > 0 && a[0] == b[0] && b[0] == c[0] {
      LexLeTrans(a[1..], b[1..], c[1..]);
    }
  }

  lemma {:induction false} LexLeAntisym(a: string, b: string)
    requires LexLe(a, b) && LexLe(b, a)
    ensures a == b
  {
    if |a| > 0 && |b| > 0 {
      LexLeAntisym(a[1..], b[1..]);
      assert a == [a[0]] + a[1..];
      assert b == [b[0]] + b[1..];
    }
  }

  /** `WHERE p`: the rows that satisfy `p`, in table order. */
  function Filter<T>(xs: seq<T>, p: T -> bool): (r: seq<T>)
    ensures |r| <= |xs|
    ensures forall k :: 0 <= k < |r| ==> r[k] in xs && p(r[k])
    ensures forall k :: 0 <= k < |xs| && p(xs[k]) ==> xs[k] in r
  {
    if |xs| == 0 then []
    else if p(xs[0]) then [xs[0]] + Filter(xs[1..], p)
    else Filter(xs[1..], p)
  }

  /** Filtering a table with one more row at its end. */
  lemma {:induction false} FilterAppend<T>(xs: seq<T>, x: T, p: T -> bool)
    ensures Filter(xs + [x], p) == Filter(xs, p) + (if p(x) then [x] else [])
  {
    if |xs| > 0 {
      assert (xs + [x])[1..] == xs[1..] + [x];
      FilterAppend(xs[1..], x, p);
    } else {
      assert xs + [x] == [x];
    }
  }

  /** A filter is a sub-multiset of the table: every row appears at most as
      often as it is stored. */
  lemma {:induction false} FilterSubMultiset<T>(xs: seq<T>, p: T -> bool)
    ensures multiset(Filter(xs, p)) <= multiset(xs)
  {
    if |xs| > 0 {
      FilterSubMultiset(xs[1..], p);
      assert xs == [xs[0]] + xs[1..];
    }
  }

  /** A filter every row passes keeps the table as it is. */
  lemma {:induction false} FilterKeepsAll<T>(xs: seq<T>, p: T -> bool)
    requires forall k :: 0 <= k < |xs| ==> p(xs[k])
    ensures Filter(xs, p) == xs
  {
    if |xs| > 0 {
      FilterKeepsAll(xs[1..], p);
      assert xs == [xs[0]] + xs[1..];
    }
  }

  /** A filter that some row fails makes the table shorter. */
  lemma {:induction false} FilterDropsRow<T>(xs: seq<T>, p: T -> bool, k: nat)
    requires k < |xs| && !p(xs[k])
    ensures |Filter(xs, p)| < |xs|
  {
    if k > 0 {
      FilterDropsRow(xs[1..], p, k - 1);
    }
  }

  /** Filtering by a weaker condition first changes nothing. */
  lemma {:induction false} FilterOfFilter<T>(xs: seq<T>, p: T -> bool, q: T -> bool)
    requires forall k :: 0 <= k < |xs| && q(xs[k]) ==> p(xs[k])
    ensures Filter(Filter(xs, p), q) == Filter(xs, q)
  {
    if |xs| > 0 {
      FilterOfFilter(xs[1..], p, q);
    }
  }

  /** Two lists with the same multiset hold the same rows. */
  lemma SameRows<T>(xs: seq<T>, ys: seq<T>)
    requires multiset(xs) == multiset(ys)
    ensures forall k :: 0 <= k < |xs| ==> xs[k] in ys
    ensures forall k :: 0 <= k < |ys| ==> ys[k] in xs
  {
    forall k | 0 <= k < |xs|
      ensures xs[k] in ys
    {
      assert xs[k] in multiset(xs);
    }
    forall k | 0 <= k < |ys|
      ensures ys[k] in xs
    {
      assert ys[k] in multiset(ys);
    }
  }

  /** Descending order of `key`, compared pairwise. */
  predicate SortedDesc<T>(ys: seq<T>, key: T -> string) {
    forall i, j :: 0 <= i < j < |ys| ==> LexLe(key(ys[j]), key(ys[i]))
  }

  /** Places `x` before the first row whose key is not greater. */
  function Insert<T>(x: T, ys: seq<T>, key: T -> string): (r: seq<T>)
    ensures multiset(r) == multiset(ys) + multiset{x}
    ensures |r| == |ys| + 1
  {
    if |ys| == 0 then [x]
    else if LexLe(key(ys[0]), key(x)) then [x] + ys
    else
      assert ys == [ys[0]] + ys[1..];
      [ys[0]] + Insert(x, ys[1..], key)
  }

  /** A row placed before a sorted list keeps it sorted when no key in the
      list is greater than its own. */
  lemma ConsKeepsSorted<T>(y: T, zs: seq<T>, key: T -> string)
    requires SortedDesc(zs, key)
    requires forall k :: 0 <= k < |zs| ==> LexLe(key(zs[k]), key(y))
    ensures SortedDesc([y] + zs, key)
  {
    var r := [y] + zs;
    forall i, j | 0 <= i < j < |r|
      ensures LexLe(key(r[j]), key(r[i]))
    {
      assert r[j] == zs[j - 1];
      if i > 0 {
        assert r[i] == zs[i - 1];
      }
    }
  }

  /** Inserting a row whose key is at most `bound` into rows whose keys are
      at most `bound` keeps every key at most `bound`. */
  lemma InsertBelow<T>(x: T, ys: seq<T>, key: T -> string, bound: string)
    requires LexLe(key(x), bound)
    requires forall k :: 0 <= k < |ys| ==> LexLe(key(ys[k]), bound)
    ensures forall k :: 0 <= k < |Insert(x, ys, key)| ==> LexLe(key(Insert(x, ys, key)[k]), bound)
  {
    var ins := Insert(x, ys, key);
    forall k | 0 <= k < |ins|
      ensures LexLe(key(ins[k]), bound)
    {
      var z := ins[k];
      assert z in multiset(ins);
      if z != x {
        assert z in multiset(ys);
        var j :| 0 <= j < |ys| && ys[j] == z;
      }
    }
  }

  lemma {:induction false} InsertKeepsSorted<T>(x: T, ys: seq<T>, key: T -> string)
    requires SortedDesc(ys, key)
    ensures SortedDesc(Insert(x, ys, key), key)
  {
    if |ys| == 0 {
    } else if LexLe(key(ys[0]), key(x)) {
      forall k | 0 <= k < |ys|
        ensures LexLe(key(ys[k]), key(x))
      {
        if k > 0 {
          LexLeTrans(key(ys[k]), key(ys[0]), key(x));
        }
      }
      ConsKeepsSorted(x, ys, key);
    } else {
      var tail := ys[1..];
      assert SortedDesc(tail, key);
      InsertKeepsSorted(x, tail, key);
      LexLeTotal(key(ys[0]), key(x));
      assert forall k :: 0 <= k < |tail| ==> LexLe(key(tail[k]), key(ys[0])) by {
        forall k | 0 <= k < |tail|
          ensures LexLe(key(tail[k]), key(ys[0]))
        {
          assert tail[k] == ys[k + 1];
        }
      }
      InsertBelow(x, tail, key, key(ys[0]));
      ConsKeepsSorted(ys[0], Insert(x, tail, key), key);
    }
  }

  /** The rows of a non-empty list: its first row and the rows after it. */
  lemma MultisetCons<T>(xs: seq<T>)
    requires |xs| > 0
    ensures multiset(xs) == multiset(xs[1..]) + multiset{xs[0]}
  {
    assert xs == [xs[0]] + xs[1..];
  }

  /** `ORDER BY key DESC`. Rows with equal keys come in an order SQLite
      leaves open; this model fixes one. */
  function SortDesc<T>(xs: seq<T>, key: T -> string): (r: seq<T>)
    ensures multiset(r) == multiset(xs)
    ensures |r| == |xs|
    ensures SortedDesc(r, key)
  {
    if |xs| == 0 then []
    else
      var rest := SortDesc(xs[1..], key);
      MultisetCons(xs);
      InsertKeepsSorted(xs[0], rest, key);
      Insert(xs[0], rest, key)
  }

  /** In a sorted list, a row whose key is strictly greater than every other
      row's key comes first. */
  lemma GreatestComesFirst<T>(xs: seq<T>, key: T -> string, x: T)
    requires x in xs
    requires forall y :: y in xs && y != x ==> !LexLe(key(x), key(y))
    ensures |SortDesc(xs, key)| > 0 && SortDesc(xs, key)[0] == x
  {
    var r := SortDesc(xs, key);
    assert x in multiset(r);
    var k :| 0 <= k < |r| && r[k] == x;
    assert r[0] in multiset(xs);
    if k != 0 {
      assert LexLe(key(x), key(r[0]));
    }
  }

  /** `LIMIT limit OFFSET offset`: a negative limit means no limit, and a
      negative offset counts as zero. */
  function Window<T>(xs: seq<T>, limit: int, offset: int): (r: seq<T>)
    ensures var start := if offset < 0 then 0 else if offset > |xs| then |xs| else offset;
      |r| == (if limit < 0 || start + limit > |xs| then |xs| - start else limit)
      && forall k :: 0 <= k < |r| ==> r[k] == xs[start + k]
  {
    var start := if offset < 0 then 0 else if offset > |xs| then |xs| else offset;
    var rest := xs[start..];
    if limit < 0 || limit >= |rest| then rest else rest[..limit]
  }

  /** Every row of a page is a row of the list. */
  lemma WindowRows<T>(xs: seq<T>, limit: int, offset: int)
    ensures forall k :: 0 <= k < |Window(xs, limit, offset)| ==> Window(xs, limit, offset)[k] in xs
  {
    var w := Window(xs, limit, offset);
    var start := if offset < 0 then 0 else if offset > |xs| then |xs| else offset;
    forall k | 0 <= k < |w|
      ensures w[k] in xs
    {
      assert w[k] == xs[start + k];
    }
  }

  /** No limit from the start: the whole list. */
  lemma WindowAll<T>(xs: seq<T>, limit: int)
    requires limit < 0
    ensures Window(xs, limit, 0) == xs
  {
    var w := Window(xs, limit, 0);
    assert |w| == |xs|;
    forall k | 0 <= k < |w|
      ensures w[k] == xs[k]
    {
    }
  }

  /** Consecutive pages tile the list: the page of `a` rows at `offset`,
      followed by the page of `b` rows right after it, is the page of
      `a + b` rows at `offset`. */
  lemma PagesTile<T>(xs: seq<T>, a: nat, b: nat, offset: nat)
    ensures Window(xs, a, offset) + Window(xs, b, offset + a) == Window(xs, a + b, offset)
  {
    var l := Window(xs, a, offset) + Window(xs, b, offset + a);
    var r := Window(xs, a + b, offset);
    assert |l| == |r|;
    forall k | 0 <= k < |l|
      ensures l[k] == r[k]
    {
    }
  }
}
