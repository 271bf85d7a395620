/** Query building blocks shared by the repositories and by the frontend list
    logic: a WHERE / `Array.prototype.filter` pass, a row count, GORM's
    OFFSET/LIMIT window and a stable descending ORDER BY / `sort`. */
module Tables {
  import opened Wrappers

  function Min(a: int, b: int): int { if a < b then a else b }
  function Max(a: int, b: int): int { if a < b then b else a }

  // ---------------------------------------------------------------------------
  // Filtering

  /** The rows of `s` satisfying `p`, in their original order. */
  function Filter<T>(s: seq<T>, p: T -> bool): (r: seq<T>)
    ensures |r| <= |s|
    ensures forall k :: 0 <= k < |r| ==> p(r[k])
  {
    if s == [] then [] else (if p(s[0]) then [s[0]] else []) + Filter(s[1..], p)
  }

  /** `r` is `s` with some elements dropped and the rest kept in order. */
  predicate IsSubsequence<T(==)>(r: seq<T>, s: seq<T>)
    decreases |s|
  {
    r == [] || (s != [] && ((r[0] == s[0] && IsSubsequence(r[1..], s[1..])) || IsSubsequence(r, s[1..])))
  }

  /** A filter is an order-preserving subsequence of its input. */
  lemma {:induction false} FilterIsSubsequence<T>(s: seq<T>, p: T -> bool)
    ensures IsSubsequence(Filter(s, p), s)
    decreases |s|
  {
    if s != [] {
      FilterIsSubsequence(s[1..], p);
      var r := Filter(s, p);
      if p(s[0]) {
        assert r[0] == s[0] && r[1..] == Filter(s[1..], p);
      } else {
        assert r == Filter(s[1..], p);
      }
    }
  }

  /** Membership in a filter: exactly the elements of `s` that satisfy `p`. */
  lemma {:induction false} FilterMember<T>(s: seq<T>, p: T -> bool, x: T)
    ensures x in Filter(s, p) <==> x in s && p(x)
    decreases |s|
  {
    if s != [] {
      FilterMember(s[1..], p, x);
      assert s == [s[0]] + s[1..];
    }
  }

  /** A filter takes from `s` exactly the occurrences that satisfy `p`. */
  lemma {:induction false} FilterMultiset<T>(s: seq<T>, p: T -> bool, x: T)
    ensures multiset(Filter(s, p))[x] == if p(x) then multiset(s)[x] else 0
    decreases |s|
  {
    if s != [] {
      FilterMultiset(s[1..], p, x);
      assert s == [s[0]] + s[1..];
    }
  }

  /** Two successive filters keep the elements satisfying both predicates. */
  lemma {:induction false} FilterFilter<T>(s: seq<T>, p: T -> bool, q: T -> bool, pq: T -> bool)
    requires forall x :: pq(x) == (p(x) && q(x))
    ensures Filter(Filter(s, p), q) == Filter(s, pq)
    decreases |s|
  {
    if s != [] {
      FilterFilter(s[1..], p, q, pq);
      FilterAppend((if p(s[0]) then [s[0]] else []), Filter(s[1..], p), q);
    }
  }

  lemma {:induction false} FilterAppend<T>(a: seq<T>, b: seq<T>, p: T -> bool)
    ensures Filter(a + b, p) == Filter(a, p) + Filter(b, p)
    decreases |a|
  {
    if a != [] {
      FilterAppend(a[1..], b, p);
      assert (a + b)[0] == a[0] && (a + b)[1..] == a[1..] + b;
      var h := if p(a[0]) then [a[0]] else [];
      assert Filter(a + b, p) == h + Filter(a[1..] + b, p);
      assert Filter(a, p) == h + Filter(a[1..], p);
    } else {
      assert a + b == b;
    }
  }

  /** A filter whose predicate holds everywhere returns its input. */
  lemma {:induction false} FilterAll<T>(s: seq<T>, p: T -> bool)
    requires forall k :: 0 <= k < |s| ==> p(s[k])
    ensures Filter(s, p) == s
    decreases |s|
  {
    if s != [] {
      FilterAll(s[1..], p);
    }
  }

  /** Appending a row adds one to the count exactly when the row is
      counted. */
  lemma CountAppend<T>(s: seq<T>, x: T, p: T -> bool)
    ensures Count(s + [x], p) == Count(s, p) + (if p(x) then 1 else 0)
  {
    FilterAppend(s, [x], p);
  }

  /** `DELETE` of the single row at `k`. */
  function RemoveAt<T>(s: seq<T>, k: int): (r: seq<T>)
    requires 0 <= k < |s|
    ensures |r| == |s| - 1
    ensures forall i :: 0 <= i < k ==> r[i] == s[i]
    ensures forall i :: k <= i < |r| ==> r[i] == s[i + 1]
    ensures multiset(r) == multiset(s) - multiset{s[k]}
  {
    assert s == s[..k] + [s[k]] + s[k + 1..];
    s[..k] + s[k + 1..]
  }

  /** Removing one row subtracts one from the count exactly when the row was
      counted. */
  lemma CountRemoveAt<T>(s: seq<T>, k: int, p: T -> bool)
    requires 0 <= k < |s|
    ensures Count(RemoveAt(s, k), p) == Count(s, p) - (if p(s[k]) then 1 else 0)
  {
    assert s == s[..k] + [s[k]] + s[k + 1..];
    FilterAppend(s[..k] + [s[k]], s[k + 1..], p);
    FilterAppend(s[..k], [s[k]], p);
    FilterAppend(s[..k], s[k + 1..], p);
  }

  /** A predicate and its complement split a sequence between them. */
  lemma {:induction false} FilterComplement<T>(s: seq<T>, p: T -> bool, q: T -> bool)
    requires forall x :: q(x) == !p(x)
    ensures |Filter(s, p)| + |Filter(s, q)| == |s|
    decreases |s|
  {
    if s != [] {
      FilterComplement(s[1..], p, q);
    }
  }

  /** SQL `COUNT(*) ... WHERE p` / `.filter(p).length`. */
  function Count<T>(s: seq<T>, p: T -> bool): (n: nat)
    ensures n <= |s|
  {
    |Filter(s, p)|
  }

  /** A count drops by one when one counted row stops being counted. */
  lemma {:induction false} CountUpdate<T>(s: seq<T>, i: int, x: T, p: T -> bool)
    requires 0 <= i < |s|
    ensures Count(s[i := x], p) == Count(s, p) - (if p(s[i]) then 1 else 0) + (if p(x) then 1 else 0)
    decreases |s|
  {
    if i > 0 {
      CountUpdate(s[1..], i - 1, x, p);
      assert s[i := x][1..] == s[1..][i - 1 := x];
    } else {
      assert s[i := x][1..] == s[1..];
    }
  }

  /** Some row satisfies `p`. */
  predicate Any<T>(s: seq<T>, p: T -> bool) {
    exists k :: 0 <= k < |s| && p(s[k])
  }

  /** A row count is positive exactly when some row is counted. */
  lemma {:induction false} CountPositive<T>(s: seq<T>, p: T -> bool)
    ensures Count(s, p) > 0 <==> Any(s, p)
    decreases |s|
  {
    if s != [] {
      CountPositive(s[1..], p);
      assert forall k :: 0 < k < |s| ==> s[k] == s[1..][k - 1];
      if Any(s[1..], p) {
        var k :| 0 <= k < |s[1..]| && p(s[1..][k]);
        assert p(s[k + 1]);
      }
    }
  }

  /** SQL `UPDATE ... SET ... WHERE p`: every row satisfying `p` is replaced
      by `f` of itself, the others stay, in place. */
  function MapWhere<T>(s: seq<T>, p: T -> bool, f: T -> T): (r: seq<T>)
    ensures |r| == |s|
    ensures forall k :: 0 <= k < |s| ==> r[k] == if p(s[k]) then f(s[k]) else s[k]
  {
    if s == [] then [] else [if p(s[0]) then f(s[0]) else s[0]] + MapWhere(s[1..], p, f)
  }

  /** GORM's `First` on a table kept in primary-key order: the first row
      satisfying `p`, if any. */
  function FindFirst<T(==)>(s: seq<T>, p: T -> bool): (r: Option<T>)
    ensures r.None? <==> !Any(s, p)
    ensures r.Some? ==> exists k :: 0 <= k < |s| && s[k] == r.value && p(s[k]) && !Any(s[..k], p)
  {
    if s == [] then None
    else if p(s[0]) then
      assert s[..0] == [];
      Some(s[0])
    else
      var r := FindFirst(s[1..], p);
      if r.Some? then
        var k :| 0 <= k < |s[1..]| && s[1..][k] == r.value && p(s[1..][k]) && !Any(s[1..][..k], p);
        assert s[k + 1] == r.value;
        assert forall j :: 0 <= j < k + 1 ==> s[..k + 1][j] == s[j];
        assert forall j :: 0 < j < k + 1 ==> s[j] == s[1..][..k][j - 1];
        r
      else
        assert forall j :: 0 < j < |s| ==> s[j] == s[1..][j - 1];
        r
  }

  /** The position of the first row satisfying `p`, if any: the row that
      `First` loads and a later `Save` writes back. */
  function FindIndex<T>(s: seq<T>, p: T -> bool): (r: Option<nat>)
    ensures r.None? <==> !Any(s, p)
    ensures r.Some? ==> r.value < |s| && p(s[r.value]) && !Any(s[..r.value], p)
    decreases |s|
  {
    if s == [] then None
    else if p(s[0]) then Some(0)
    else match FindIndex(s[1..], p)
      case None => None
      case Some(k) =>
        assert s[..k + 1] == [s[0]] + s[1..][..k];
        Some(k + 1)
  }

  // ---------------------------------------------------------------------------
  // OFFSET / LIMIT

  /** GORM's `Offset(offset).Limit(limit)`: an offset that is not positive is
      not emitted, a negative limit is not emitted, and `LIMIT 0` is empty. */
  function Window<T>(s: seq<T>, offset: int, limit: int): (r: seq<T>)
    ensures var start := Min(Max(offset, 0), |s|);
      |r| == (if limit < 0 then |s| - start else Min(limit, |s| - start))
    ensures forall k :: 0 <= k < |r| ==> r[k] == s[Max(offset, 0) + k]
  {
    var start := Min(Max(offset, 0), |s|);
    if limit < 0 then s[start..] else s[start..Min(|s|, start + limit)]
  }

  // ---------------------------------------------------------------------------
  // ORDER BY ... DESC

  /** Lexicographic "at least" on two-part sort keys. */
  predicate KeyGe(a: (int, int), b: (int, int)) {
    a.0 > b.0 || (a.0 == b.0 && a.1 >= b.1)
  }

  predicate SortedDesc<T>(s: seq<T>, key: T -> (int, int)) {
    forall i, j :: 0 <= i < j < |s| ==> KeyGe(key(s[i]), key(s[j]))
  }

  /** Inserts `x` after every element whose key is at least its own. */
  function InsertDesc<T>(x: T, s: seq<T>, key: T -> (int, int)): (r: seq<T>)
    ensures |r| == |s| + 1
  {
    if s == [] then [x]
    else if !KeyGe(key(s[0]), key(x)) then [x] + s
    else [s[0]] + InsertDesc(x, s[1..], key)
  }

  lemma {:induction false} InsertDescPermutes<T>(x: T, s: seq<T>, key: T -> (int, int))
    ensures multiset(InsertDesc(x, s, key)) == multiset(s) + multiset{x}
    decreases |s|
  {
    if s != [] && KeyGe(key(s[0]), key(x)) {
      InsertDescPermutes(x, s[1..], key);
      assert s == [s[0]] + s[1..];
    }
  }

  /** A key at least every key of `s` and that of `x` is at least every key
      after the insertion. */
  lemma {:induction false} InsertDescBounded<T>(x: T, s: seq<T>, key: T -> (int, int), top: (int, int))
    requires KeyGe(top, key(x)) && forall k :: 0 <= k < |s| ==> KeyGe(top, key(s[k]))
    ensures forall k :: 0 <= k < |InsertDesc(x, s, key)| ==> KeyGe(top, key(InsertDesc(x, s, key)[k]))
    decreases |s|
  {
    if s != [] && KeyGe(key(s[0]), key(x)) {
      InsertDescBounded(x, s[1..], key, top);
      var r := InsertDesc(x, s, key);
      assert r == [s[0]] + InsertDesc(x, s[1..], key);
      forall k | 0 < k < |r| ensures KeyGe(top, key(r[k])) {
        assert r[k] == InsertDesc(x, s[1..], key)[k - 1];
      }
    }
  }

  lemma KeyGeTransitive(a: (int, int), b: (int, int), c: (int, int))
    requires KeyGe(a, b) && KeyGe(b, c)
    ensures KeyGe(a, c)
  {
  }

  lemma {:induction false} InsertDescSorted<T>(x: T, s: seq<T>, key: T -> (int, int))
    requires SortedDesc(s, key)
    ensures SortedDesc(InsertDesc(x, s, key), key)
    ensures multiset(InsertDesc(x, s, key)) == multiset(s) + multiset{x}
    decreases |s|
  {
    InsertDescPermutes(x, s, key);
    if s == [] {
    } else if KeyGe(key(s[0]), key(x)) {
      var t := InsertDesc(x, s[1..], key);
      InsertDescSorted(x, s[1..], key);
      InsertDescBounded(x, s[1..], key, key(s[0]));
      var r := InsertDesc(x, s, key);
      assert r == [s[0]] + t;
      forall i, j | 0 <= i < j < |r| ensures KeyGe(key(r[i]), key(r[j])) {
        if i == 0 {
          assert r[j] == t[j - 1];
        } else {
          assert r[i] == t[i - 1] && r[j] == t[j - 1];
        }
      }
    } else {
      var r := InsertDesc(x, s, key);
      assert r == [x] + s;
      assert KeyGe(key(x), key(s[0]));
      forall i, j | 0 <= i < j < |r| ensures KeyGe(key(r[i]), key(r[j])) {
        if i == 0 {
          assert r[j] == s[j - 1];
          if j > 1 {
            KeyGeTransitive(key(x), key(s[0]), key(s[j - 1]));
          }
        } else {
          assert r[i] == s[i - 1] && r[j] == s[j - 1];
        }
      }
    }
  }

  /** A stable sort by descending key: insertion of each element in turn. */
  function SortDesc<T>(s: seq<T>, key: T -> (int, int)): (r: seq<T>)
    ensures |r| == |s|
  {
    if s == [] then [] else InsertDesc(s[|s| - 1], SortDesc(s[..|s| - 1], key), key)
  }

  /** The sort orders by descending key and is a permutation of its input. */
  lemma {:induction false} SortDescCorrect<T>(s: seq<T>, key: T -> (int, int))
    ensures SortedDesc(SortDesc(s, key), key)
    ensures multiset(SortDesc(s, key)) == multiset(s)
    decreases |s|
  {
    if s != [] {
      SortDescCorrect(s[..|s| - 1], key);
      InsertDescSorted(s[|s| - 1], SortDesc(s[..|s| - 1], key), key);
      assert s == s[..|s| - 1] + [s[|s| - 1]];
    }
  }

  /** A window of a descending sequence is descending. */
  lemma WindowSorted<T>(l: seq<T>, key: T -> (int, int), offset: int, limit: int)
    requires SortedDesc(l, key)
    ensures SortedDesc(Window(l, offset, limit), key)
  {
    var w := Window(l, offset, limit);
    forall i, j | 0 <= i < j < |w|
      ensures KeyGe(key(w[i]), key(w[j]))
    {
      assert w[i] == l[Max(offset, 0) + i] && w[j] == l[Max(offset, 0) + j];
    }
  }

  /** Every row of a window is a row of the sequence. */
  lemma WindowMembers<T>(l: seq<T>, offset: int, limit: int)
    ensures forall k :: 0 <= k < |Window(l, offset, limit)| ==> Window(l, offset, limit)[k] in l
  {
    var w := Window(l, offset, limit);
    forall k | 0 <= k < |w|
      ensures w[k] in l
    {
      assert w[k] == l[Max(offset, 0) + k];
    }
  }

  /** A page of a sorted selection: every row on it is a selected row of the
      table, and the page keeps the descending order. */
  lemma PageOfSelection<T>(s: seq<T>, p: T -> bool, key: T -> (int, int), offset: int, limit: int)
    ensures var w := Window(SortDesc(Filter(s, p), key), offset, limit);
      (forall k :: 0 <= k < |w| ==> w[k] in s && p(w[k])) && SortedDesc(w, key)
  {
    var f := Filter(s, p);
    var l := SortDesc(f, key);
    SortDescCorrect(f, key);
    WindowSorted(l, key, offset, limit);
    WindowMembers(l, offset, limit);
    var w := Window(l, offset, limit);
    forall k | 0 <= k < |w|
      ensures w[k] in s && p(w[k])
    {
      var x := w[k];
      assert x in l;
      assert x in multiset(f);
      FilterMember(s, p, x);
    }
  }
}
