/**
 * The collection operations of the document store and of the React state
 * updates: `filter`, `map` by id, `sort({ uploadedAt: -1 })` and
 * `skip(n).limit(m)`.
 */
module Collections {

  /** `s.filter(p)` / `find(query)`: the elements satisfying `p`, in their original order. */
  function Filter<T>(s: seq<T>, p: T -> bool): (r: seq<T>)
    ensures |r| <= |s|
    ensures forall i :: 0 <= i < |r| ==> p(r[i])
  {
    if |s| == 0 then []
    else if p(s[0]) then [s[0]] + Filter(s[1..], p)
    else Filter(s[1..], p)
  }

  /** Filtering keeps each satisfying element as often as it occurred and drops every other. */
  lemma {:induction false} FilterMultiplicity<T>(s: seq<T>, p: T -> bool, x: T)
    ensures multiset(Filter(s, p))[x] == if p(x) then multiset(s)[x] else 0
  {
    if |s| > 0 {
      FilterMultiplicity(s[1..], p, x);
      assert s == [s[0]] + s[1..];
    }
  }

  /** Filtering commutes with concatenation, so it never reorders what it keeps. */
  lemma {:induction false} FilterConcat<T>(a: seq<T>, b: seq<T>, p: T -> bool)
    ensures Filter(a + b, p) == Filter(a, p) + Filter(b, p)
  {
    if |a| == 0 {
      assert a + b == b;
    } else {
      FilterConcat(a[1..], b, p);
      assert (a + b)[0] == a[0] && (a + b)[1..] == a[1..] + b;
      if p(a[0]) {
        assert Filter(a + b, p) == [a[0]] + Filter(a[1..] + b, p);
        assert Filter(a, p) == [a[0]] + Filter(a[1..], p);
      } else {
        assert Filter(a + b, p) == Filter(a[1..] + b, p);
        assert Filter(a, p) == Filter(a[1..], p);
      }
    }
  }

  lemma FilterMembership<T>(s: seq<T>, p: T -> bool, x: T)
    ensures x in Filter(s, p) <==> x in s && p(x)
  {
    FilterMultiplicity(s, p, x);
  }

  /** `s.map(x => key(x) === k ? y : x)`: every element with that key replaced, the others kept in place. */
  function ReplaceWhere<T, K(==)>(s: seq<T>, key: T -> K, k: K, y: T): (r: seq<T>)
    ensures |r| == |s|
    ensures forall i :: 0 <= i < |s| ==> r[i] == if key(s[i]) == k then y else s[i]
  {
    if |s| == 0 then []
    else [if key(s[0]) == k then y else s[0]] + ReplaceWhere(s[1..], key, k, y)
  }

  /** `s.filter(x => key(x) !== k)`: every element with that key dropped. */
  function RemoveWhere<T, K(==)>(s: seq<T>, key: T -> K, k: K): (r: seq<T>)
    ensures |r| <= |s|
    ensures forall i :: 0 <= i < |r| ==> key(r[i]) != k
  {
    if |s| == 0 then []
    else if key(s[0]) == k then RemoveWhere(s[1..], key, k)
    else [s[0]] + RemoveWhere(s[1..], key, k)
  }

  /** Every element without that key is kept as often as it occurs, every other dropped entirely. */
  lemma {:induction false} RemoveWhereMultiplicity<T, K>(s: seq<T>, key: T -> K, k: K, x: T)
    ensures multiset(RemoveWhere(s, key, k))[x] == if key(x) == k then 0 else multiset(s)[x]
  {
    if |s| > 0 {
      RemoveWhereMultiplicity(s[1..], key, k, x);
      assert s == [s[0]] + s[1..];
    }
  }

  /** Removing by key commutes with concatenation, so the kept elements stay in order. */
  lemma {:induction false} RemoveWhereConcat<T, K>(a: seq<T>, b: seq<T>, key: T -> K, k: K)
    ensures RemoveWhere(a + b, key, k) == RemoveWhere(a, key, k) + RemoveWhere(b, key, k)
  {
    if |a| == 0 {
      assert a + b == b;
    } else {
      RemoveWhereConcat(a[1..], b, key, k);
      assert (a + b)[1..] == a[1..] + b;
    }
  }

  /** Descending order of the timestamp `at`. */
  ghost predicate NewestFirstOrder<T>(s: seq<T>, at: T -> int) {
    forall i, j :: 0 <= i < j < |s| ==> at(s[i]) >= at(s[j])
  }

  /** Inserts `x` before the first element that is not newer than it. */
  function InsertNewest<T>(x: T, s: seq<T>, at: T -> int): (r: seq<T>)
    ensures multiset(r) == multiset(s) + multiset{x}
  {
    if |s| == 0 || at(s[0]) <= at(x) then [x] + s
    else
      assert s == [s[0]] + s[1..];
      [s[0]] + InsertNewest(x, s[1..], at)
  }

  lemma {:induction false} InsertNewestKeepsOrder<T>(x: T, s: seq<T>, at: T -> int)
    requires NewestFirstOrder(s, at)
    ensures NewestFirstOrder(InsertNewest(x, s, at), at)
  {
    if |s| > 0 && at(s[0]) > at(x) {
      var rest := InsertNewest(x, s[1..], at);
      InsertNewestKeepsOrder(x, s[1..], at);
      forall j | 0 <= j < |rest|
        ensures at(s[0]) >= at(rest[j])
      {
        assert rest[j] in multiset(rest);
        assert rest[j] in multiset(s[1..]) || rest[j] == x;
        if rest[j] != x {
          assert rest[j] in s[1..];
        }
      }
    }
  }

  /** `sort({ uploadedAt: -1 })`, newest first; records with equal timestamps keep their store order. */
  function NewestFirst<T>(s: seq<T>, at: T -> int): (r: seq<T>)
    ensures multiset(r) == multiset(s)
    ensures NewestFirstOrder(r, at)
  {
    if |s| == 0 then []
    else
      assert s == [s[0]] + s[1..];
      InsertNewestKeepsOrder(s[0], NewestFirst(s[1..], at), at);
      InsertNewest(s[0], NewestFirst(s[1..], at), at)
  }

  /** Sorting neither adds nor drops an element, so the length stays too. */
  lemma NewestFirstSameElements<T>(s: seq<T>, at: T -> int)
    ensures |NewestFirst(s, at)| == |s|
    ensures forall x :: x in NewestFirst(s, at) <==> x in s
  {
    var r := NewestFirst(s, at);
    assert |r| == |multiset(r)| == |multiset(s)| == |s|;
    forall x ensures x in r <==> x in s {
      assert x in r <==> x in multiset(r);
      assert x in s <==> x in multiset(s);
    }
  }

  /** `cursor.skip(skip).limit(limit)`: a limit of 0 means no limit, a negative one counts as its magnitude. */
  function Window<T>(s: seq<T>, skip: nat, limit: int): (r: seq<T>)
    ensures skip >= |s| ==> r == []
    ensures forall i :: 0 <= i < |r| ==> skip + i < |s| && r[i] == s[skip + i]
    ensures skip <= |s| && limit == 0 ==> |r| == |s| - skip
    ensures skip <= |s| && limit != 0 ==> |r| == Min(|s| - skip, if limit < 0 then -limit else limit)
    ensures |r| == WindowLength(|s|, skip, limit)
  {
    var start := if skip < |s| then skip else |s|;
    var count := if limit < 0 then -limit else limit;
    var stop := if limit == 0 || start + count > |s| then |s| else start + count;
    s[start..stop]
  }

  /**
   * How many of `total` elements `skip(skip).limit(limit)` selects: none from
   * the end on (or for a negative skip, which the store refuses), all the rest
   * for limit 0, otherwise at most the limit's magnitude.
   */
  function WindowLength(total: nat, skip: int, limit: int): nat {
    if skip >= total || skip < 0 then 0
    else if limit == 0 then total - skip
    else Min(total - skip, if limit < 0 then -limit else limit)
  }

  /** A window of a newest-first sequence is newest first too. */
  lemma WindowKeepsOrder<T>(s: seq<T>, skip: nat, limit: int, at: T -> int)
    requires NewestFirstOrder(s, at)
    ensures NewestFirstOrder(Window(s, skip, limit), at)
  {
    var w := Window(s, skip, limit);
    forall i, j | 0 <= i < j < |w| ensures at(w[i]) >= at(w[j]) {
      assert w[i] == s[skip + i] && w[j] == s[skip + j];
    }
  }

  /** A window of the newest-first order is newest first, drawn from the sequence, and as long as the window of the sequence. */
  lemma SortedWindow<T>(s: seq<T>, skip: nat, limit: int, at: T -> int)
    ensures var w := Window(NewestFirst(s, at), skip, limit);
            && NewestFirstOrder(w, at)
            && (forall i :: 0 <= i < |w| ==> w[i] in s)
            && |w| == WindowLength(|s|, skip, limit)
  {
    var sorted := NewestFirst(s, at);
    NewestFirstSameElements(s, at);
    WindowKeepsOrder(sorted, skip, limit, at);
    WindowMembers(sorted, skip, limit);
    var w := Window(sorted, skip, limit);
    assert forall i :: 0 <= i < |w| ==> w[i] in w;
  }

  /** Every element of a window is an element of the sequence. */
  lemma WindowMembers<T>(s: seq<T>, skip: nat, limit: int)
    ensures forall x :: x in Window(s, skip, limit) ==> x in s
  {
    var w := Window(s, skip, limit);
    forall x | x in w ensures x in s {
      var i :| 0 <= i < |w| && w[i] == x;
      assert s[skip + i] == x;
    }
  }

  function Min(a: int, b: int): int {
    if a <= b then a else b
  }
}
