/** The query shapes the backend issues against its tables, over a table
    held as a sequence in insertion order: a first-match lookup
    (`.first()`, `session.get`, a `for ... break` scan), a conjunctive
    `WHERE`, `ORDER BY` on a timestamp column, and `OFFSET`/`LIMIT`. */
module Seqs {
  import opened Base

  /** Index of the first element satisfying `p`. */
  function FirstIndex<T>(s: seq<T>, p: T -> bool): (r: Option<nat>)
    ensures r.Some? ==> r.value < |s| && p(s[r.value])
    ensures r.Some? ==> forall j :: 0 <= j < r.value ==> !p(s[j])
    ensures r.None? <==> forall j :: 0 <= j < |s| ==> !p(s[j])
  {
    if |s| == 0 then None
    else if p(s[0]) then Some(0)
    else match FirstIndex(s[1..], p) {
      case None => None
      case Some(i) => Some(i + 1)
    }
  }

  /** A position at which a member of `s` occurs. */
  lemma IndexOf<T>(s: seq<T>, x: T) returns (k: nat)
    requires x in s
    ensures k < |s| && s[k] == x
  {
    k :| 0 <= k < |s| && s[k] == x;
  }

  /** The elements satisfying `p`, in their original order. */
  function Filter<T(!new)>(s: seq<T>, p: T -> bool): (r: seq<T>)
    ensures |r| <= |s|
    ensures forall x :: x in r <==> x in s && p(x)
    ensures forall i :: 0 <= i < |r| ==> p(r[i])
  {
    if |s| == 0 then []
    else if p(s[0]) then [s[0]] + Filter(s[1..], p)
    else Filter(s[1..], p)
  }

  /** Filtering a sequence every element of which passes keeps it whole. */
  lemma {:induction false} FilterKeepsAll<T(!new)>(s: seq<T>, p: T -> bool)
    requires forall i :: 0 <= i < |s| ==> p(s[i])
    ensures Filter(s, p) == s
  {
    if |s| > 0 {
      FilterKeepsAll(s[1..], p);
    }
  }

  /** Appending one element adds it to the filtered sequence exactly when
      it passes. */
  lemma {:induction false} FilterAppend<T(!new)>(s: seq<T>, x: T, p: T -> bool)
    ensures Filter(s + [x], p) == if p(x) then Filter(s, p) + [x] else Filter(s, p)
  {
    if |s| > 0 {
      assert (s + [x])[1..] == s[1..] + [x];
      FilterAppend(s[1..], x, p);
    }
  }

  ghost predicate Ascending<T>(s: seq<T>, key: T -> int)
  {
    forall i, j :: 0 <= i < j < |s| ==> key(s[i]) <= key(s[j])
  }

  ghost predicate Descending<T>(s: seq<T>, key: T -> int)
  {
    forall i, j :: 0 <= i < j < |s| ==> key(s[i]) >= key(s[j])
  }

  /** Inserts `x` before the first element whose key is not smaller. */
  function Insert<T>(x: T, s: seq<T>, key: T -> int): (r: seq<T>)
    requires Ascending(s, key)
    ensures Ascending(r, key)
    ensures multiset(r) == multiset(s) + multiset{x}
  {
    if |s| == 0 then [x]
    else if key(x) <= key(s[0]) then [x] + s
    else
      var rest := Insert(x, s[1..], key);
      assert s == [s[0]] + s[1..];
      LowerBoundKept(rest, s[1..], x, key, key(s[0]));
      [s[0]] + rest
  }

  /** A lower bound on the keys of `tail` and of `x` bounds every element
      of a sequence made of exactly those elements. */
  lemma LowerBoundKept<T>(r: seq<T>, tail: seq<T>, x: T, key: T -> int, b: int)
    requires multiset(r) == multiset(tail) + multiset{x}
    requires forall i :: 0 <= i < |tail| ==> b <= key(tail[i])
    requires b <= key(x)
    ensures forall i :: 0 <= i < |r| ==> b <= key(r[i])
  {
    forall i | 0 <= i < |r|
      ensures b <= key(r[i])
    {
      assert r[i] in multiset(r);
      if r[i] != x {
        assert r[i] in multiset(tail);
        var j :| 0 <= j < |tail| && tail[j] == r[i];
      }
    }
  }

  /** `ORDER BY key ASC`. Rows with equal keys keep their store order (the
      database leaves that order unspecified). */
  function SortAscending<T(!new)>(s: seq<T>, key: T -> int): (r: seq<T>)
    ensures Ascending(r, key)
    ensures multiset(r) == multiset(s)
    ensures |r| == |s|
    ensures forall x :: x in r <==> x in s
  {
    if |s| == 0 then []
    else
      var r := Insert(s[0], SortAscending(s[1..], key), key);
      assert s == [s[0]] + s[1..];
      SameMultisetSameElements(r, s);
      r
  }

  lemma SameMultisetSameElements<T>(a: seq<T>, b: seq<T>)
    requires multiset(a) == multiset(b)
    ensures |a| == |b|
    ensures forall x :: x in a <==> x in b
  {
    assert |a| == |multiset(a)| && |b| == |multiset(b)|;
    forall x
      ensures x in a <==> x in b
    {
      assert x in a <==> x in multiset(a);
      assert x in b <==> x in multiset(b);
    }
  }

  /** `ORDER BY key DESC`: ascending order on the negated key. */
  function SortDescending<T(!new)>(s: seq<T>, key: T -> int): (r: seq<T>)
    ensures Descending(r, key)
    ensures multiset(r) == multiset(s)
    ensures |r| == |s|
    ensures forall x :: x in r <==> x in s
  {
    SortAscending(s, x => -key(x))
  }

  /** `sorted` holds exactly the elements of `s`, as often as `s` does, in
      ascending order of `key`. Elements with equal keys may come in any
      order. */
  ghost predicate ArrangedAscending<T>(sorted: seq<T>, s: seq<T>, key: T -> int)
  {
    multiset(sorted) == multiset(s) && Ascending(sorted, key)
  }

  ghost predicate ArrangedDescending<T>(sorted: seq<T>, s: seq<T>, key: T -> int)
  {
    multiset(sorted) == multiset(s) && Descending(sorted, key)
  }

  /** `r` is what `OFFSET skip LIMIT limit` keeps of `sorted`: the
      positions from `skip` on, at most `limit` of them. */
  ghost predicate Window<T>(r: seq<T>, sorted: seq<T>, skip: nat, limit: nat)
  {
    && |r| == (if skip < |sorted| then Min(limit, |sorted| - skip) else 0)
    && forall i :: 0 <= i < |r| ==> skip + i < |sorted| && r[i] == sorted[skip + i]
  }

  /** `OFFSET skip LIMIT limit`. */
  function Page<T>(s: seq<T>, skip: nat, limit: nat): (r: seq<T>)
    ensures |r| <= limit
    ensures skip >= |s| ==> r == []
    ensures skip < |s| ==> |r| == Min(limit, |s| - skip)
    ensures forall i :: 0 <= i < |r| ==> skip + i < |s| && r[i] == s[skip + i]
  {
    if skip >= |s| then [] else s[skip..skip + Min(limit, |s| - skip)]
  }

  lemma PageElements<T>(s: seq<T>, skip: nat, limit: nat)
    ensures forall x :: x in Page(s, skip, limit) ==> x in s
  {
    forall x | x in Page(s, skip, limit)
      ensures x in s
    {
      var r := Page(s, skip, limit);
      var i :| 0 <= i < |r| && r[i] == x;
      assert r[i] == s[skip + i];
    }
  }

  /** A page of an ordered sequence is ordered the same way. */
  lemma PageKeepsOrder<T>(s: seq<T>, skip: nat, limit: nat, key: T -> int)
    ensures Ascending(s, key) ==> Ascending(Page(s, skip, limit), key)
    ensures Descending(s, key) ==> Descending(Page(s, skip, limit), key)
  {
    var r := Page(s, skip, limit);
    assert forall i :: 0 <= i < |r| ==> r[i] == s[skip + i];
  }

  /** The first page of an ascending sequence holds its smallest keys:
      nothing left off the page has a smaller key than anything on it. */
  lemma FirstPageHoldsSmallest<T>(s: seq<T>, limit: nat, key: T -> int)
    requires Ascending(s, key)
    ensures forall c, d :: c in Page(s, 0, limit) && d in s && d !in Page(s, 0, limit) ==> key(c) <= key(d)
  {
    var r := Page(s, 0, limit);
    forall c, d | c in r && d in s && d !in r
      ensures key(c) <= key(d)
    {
      var i :| 0 <= i < |r| && r[i] == c;
      var j :| 0 <= j < |s| && s[j] == d;
      assert s[i] == c;
    }
  }

  /** The first page of a descending sequence holds its largest keys. */
  lemma FirstPageHoldsLargest<T>(s: seq<T>, limit: nat, key: T -> int)
    requires Descending(s, key)
    ensures forall c, d :: c in Page(s, 0, limit) && d in s && d !in Page(s, 0, limit) ==> key(c) >= key(d)
  {
    var r := Page(s, 0, limit);
    forall c, d | c in r && d in s && d !in r
      ensures key(c) >= key(d)
    {
      var i :| 0 <= i < |r| && r[i] == c;
      var j :| 0 <= j < |s| && s[j] == d;
      assert s[i] == c;
    }
  }


  /** Everything a query result inherits from an ascending page. */
  lemma AscendingPage<T>(s: seq<T>, skip: nat, limit: nat, key: T -> int)
    requires Ascending(s, key)
    ensures forall x :: x in Page(s, skip, limit) ==> x in s
    ensures Ascending(Page(s, skip, limit), key)
    ensures skip == 0 ==> forall c, d :: c in Page(s, skip, limit) && d in s && d !in Page(s, skip, limit) ==> key(c) <= key(d)
    ensures skip == 0 && |s| <= limit ==> Page(s, skip, limit) == s
  {
    PageElements(s, skip, limit);
    PageKeepsOrder(s, skip, limit, key);
    if skip == 0 {
      FirstPageHoldsSmallest(s, limit, key);
    }
  }

  /** Everything a query result inherits from a descending page. */
  lemma DescendingPage<T>(s: seq<T>, skip: nat, limit: nat, key: T -> int)
    requires Descending(s, key)
    ensures forall x :: x in Page(s, skip, limit) ==> x in s
    ensures Descending(Page(s, skip, limit), key)
    ensures skip == 0 ==> forall c, d :: c in Page(s, skip, limit) && d in s && d !in Page(s, skip, limit) ==> key(c) >= key(d)
    ensures skip == 0 && |s| <= limit ==> Page(s, skip, limit) == s
  {
    PageElements(s, skip, limit);
    PageKeepsOrder(s, skip, limit, key);
    if skip == 0 {
      FirstPageHoldsLargest(s, limit, key);
    }
  }
}
