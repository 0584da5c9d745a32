// The query shapes the list endpoints share: keeping the rows that match, and
// ordering rows by a nullable date or by a name.
module Queries {
  import opened Common

  /** The ids of `ids` that `keep` accepts, in the same order (LINQ `Where`). */
  function Filter(ids: seq<int>, keep: int -> bool): (r: seq<int>)
    ensures forall x :: x in r <==> x in ids && keep(x)
    ensures |r| <= |ids|
    ensures Increasing(ids) ==> Increasing(r)
  {
    if ids == [] then []
    else
      var rest := Filter(ids[1..], keep);
      if keep(ids[0]) then
        FilterHead(ids, rest);
        [ids[0]] + rest
      else
        assert ids == [ids[0]] + ids[1..];
        assert Increasing(ids) ==> Increasing(ids[1..]) by {
          assert forall i :: 0 <= i < |ids| - 1 ==> ids[1..][i] == ids[i + 1];
        }
        rest
  }

  /** Putting the head of an increasing sequence before a choice of its tail keeps it increasing. */
  lemma FilterHead(ids: seq<int>, rest: seq<int>)
    requires ids != []
    requires forall x :: x in rest ==> x in ids[1..]
    requires Increasing(ids[1..]) ==> Increasing(rest)
    ensures forall x :: x in [ids[0]] + rest <==> x == ids[0] || x in rest
    ensures Increasing(ids) ==> Increasing([ids[0]] + rest)
  {
    if Increasing(ids) {
      assert forall i :: 0 <= i < |ids| - 1 ==> ids[1..][i] == ids[i + 1];
      assert Increasing(ids[1..]);
      forall j | 0 <= j < |rest|
        ensures ids[0] < rest[j]
      {
        assert rest[j] in rest;
        var i :| 0 <= i < |ids[1..]| && ids[1..][i] == rest[j];
        assert ids[i + 1] == rest[j];
      }
      var r := [ids[0]] + rest;
      forall i, j | 0 <= i < j < |r|
        ensures r[i] < r[j]
      {
        if i > 0 {
          assert r[i] == rest[i - 1] && r[j] == rest[j - 1];
        }
      }
    }
  }

  /**
   * Where date `a` may come before date `b`: newest first when `descending`, oldest
   * first otherwise; a missing date counts as the lowest, as SQL Server orders nulls.
   */
  predicate Precedes(a: Option<int>, b: Option<int>, descending: bool)
  {
    if descending then b.None? || (a.Some? && a.value >= b.value)
    else a.None? || (b.Some? && a.value <= b.value)
  }

  predicate OrderedBy(r: seq<int>, date: int -> Option<int>, descending: bool)
  {
    forall i, j :: 0 <= i < j < |r| ==> Precedes(date(r[i]), date(r[j]), descending)
  }

  lemma PrecedesTotal(a: Option<int>, b: Option<int>, descending: bool)
    ensures Precedes(a, b, descending) || Precedes(b, a, descending)
  {
  }

  lemma PrecedesTransitive(a: Option<int>, b: Option<int>, c: Option<int>, descending: bool)
    requires Precedes(a, b, descending) && Precedes(b, c, descending)
    ensures Precedes(a, c, descending)
  {
  }

  /** A slice of a sequence ordered by date is ordered by date. */
  lemma OrderedBySlice(s: seq<int>, date: int -> Option<int>, descending: bool, lo: int, hi: int)
    requires OrderedBy(s, date, descending) && 0 <= lo <= hi <= |s|
    ensures OrderedBy(s[lo..hi], date, descending)
  {
    forall i, j | 0 <= i < j < hi - lo
      ensures Precedes(date(s[lo..hi][i]), date(s[lo..hi][j]), descending)
    {
      assert s[lo..hi][i] == s[lo + i] && s[lo..hi][j] == s[lo + j];
    }
  }

  /** Every id of a slice of a permutation of `ids` is one of `ids`. */
  lemma SliceOfPermutation(ids: seq<int>, sorted: seq<int>, lo: int, hi: int)
    requires multiset(sorted) == multiset(ids) && 0 <= lo <= hi <= |sorted|
    ensures forall k :: k in sorted[lo..hi] ==> k in ids
  {
    forall k | k in sorted[lo..hi]
      ensures k in ids
    {
      assert k in multiset(sorted);
    }
  }

  /** Every element of `tail` is `x` or an element of `r`. */
  lemma ElementsOfInsert(x: int, r: seq<int>, tail: seq<int>, j: int)
    requires multiset(tail) == multiset(r) + multiset{x}
    requires 0 <= j < |tail|
    ensures tail[j] == x || exists k :: 0 <= k < |r| && r[k] == tail[j]
  {
    assert tail[j] in multiset(tail);
    if tail[j] != x {
      assert tail[j] in multiset(r);
      assert tail[j] in r;
    }
  }

  /** Inserts `x` into an ordered sequence, after the ids it does not precede. */
  function InsertByDate(x: int, r: seq<int>, date: int -> Option<int>, descending: bool): (s: seq<int>)
    requires OrderedBy(r, date, descending)
    ensures OrderedBy(s, date, descending)
    ensures multiset(s) == multiset(r) + multiset{x}
  {
    if r == [] then [x]
    else if Precedes(date(x), date(r[0]), descending) then
      forall j | 0 <= j < |r|
        ensures Precedes(date(x), date(r[j]), descending)
      {
        if j > 0 {
          PrecedesTransitive(date(x), date(r[0]), date(r[j]), descending);
        }
      }
      assert r == [r[0]] + r[1..];
      [x] + r
    else
      PrecedesTotal(date(x), date(r[0]), descending);
      var tail := InsertByDate(x, r[1..], date, descending);
      forall j | 0 <= j < |tail|
        ensures Precedes(date(r[0]), date(tail[j]), descending)
      {
        ElementsOfInsert(x, r[1..], tail, j);
        if tail[j] != x {
          var k :| 0 <= k < |r[1..]| && r[1..][k] == tail[j];
          assert r[k + 1] == tail[j];
        }
      }
      assert r == [r[0]] + r[1..];
      [r[0]] + tail
  }

  /** The ids ordered by date (LINQ `OrderBy`/`OrderByDescending`): the same ids, in date order. */
  function SortByDate(ids: seq<int>, date: int -> Option<int>, descending: bool): (r: seq<int>)
    ensures OrderedBy(r, date, descending)
    ensures multiset(r) == multiset(ids)
    ensures |r| == |ids|
  {
    if ids == [] then []
    else
      assert ids == [ids[0]] + ids[1..];
      InsertByDate(ids[0], SortByDate(ids[1..], date, descending), date, descending)
  }

  /**
   * The page `page` of `pageSize` ids after ordering them by date
   * (`OrderBy(date).Skip((page - 1) * pageSize).Take(pageSize)`), or `None` when
   * the database refuses the page.
   */
  function PageByDate(ids: seq<int>, date: int -> Option<int>, descending: bool, page: int, pageSize: int)
    : (r: Option<seq<int>>)
    ensures r.None? <==> PageRefused(page, pageSize)
    ensures r.Some? ==> forall k :: k in r.value ==> k in ids
    ensures r.Some? ==> OrderedBy(r.value, date, descending)
    ensures r.Some? ==> |r.value| == Min(pageSize, |ids| - PageStart(|ids|, page, pageSize))
    ensures r.Some? ==> SliceAt(r.value, SortByDate(ids, date, descending), PageStart(|ids|, page, pageSize))
  {
    var sorted := SortByDate(ids, date, descending);
    if PageRefused(page, pageSize) then None
    else
      PageOfOrdered(ids, sorted, date, descending, page, pageSize);
      Page(sorted, page, pageSize)
  }

  /** A page of a date-ordered permutation of `ids` holds ids of `ids`, in date order. */
  lemma PageOfOrdered(ids: seq<int>, sorted: seq<int>, date: int -> Option<int>, descending: bool, page: int, pageSize: int)
    requires multiset(sorted) == multiset(ids) && OrderedBy(sorted, date, descending)
    requires !PageRefused(page, pageSize)
    ensures var r := Page(sorted, page, pageSize).value;
      && (forall k :: k in r ==> k in ids)
      && OrderedBy(r, date, descending)
  {
    var lo := PageStart(|sorted|, page, pageSize);
    var r := Page(sorted, page, pageSize).value;
    PageIsSlice(sorted, page, pageSize);
    SliceOfPermutation(ids, sorted, lo, lo + |r|);
    OrderedBySlice(sorted, date, descending, lo, lo + |r|);
  }

  /** With a positive page size, every id of a list of 32-bit length is on some page of the date-ordered list. */
  lemma PagesByDateCoverAll(ids: seq<int>, date: int -> Option<int>, descending: bool, pageSize: int, k: int)
    requires pageSize > 0 && k in ids && |ids| <= Int32Bound
    ensures exists page :: (page >= 1 && PageByDate(ids, date, descending, page, pageSize).Some?
      && k in PageByDate(ids, date, descending, page, pageSize).value)
  {
    var page := PageOfId(ids, date, descending, pageSize, k);
  }

  /** The page of the date-ordered list that holds `k`. */
  lemma PageOfId(ids: seq<int>, date: int -> Option<int>, descending: bool, pageSize: int, k: int) returns (page: int)
    requires pageSize > 0 && k in ids && |ids| <= Int32Bound
    ensures page >= 1 && PageByDate(ids, date, descending, page, pageSize).Some?
      && k in PageByDate(ids, date, descending, page, pageSize).value
  {
    var sorted := SortByDate(ids, date, descending);
    var i := IndexIn(ids, sorted, k);
    PageHolds(sorted, pageSize, i);
    page := i / pageSize + 1;
    var r := PageByDate(ids, date, descending, page, pageSize).value;
    assert r[i % pageSize] == k;
  }

  /** Where `k` of `ids` sits in a permutation of `ids`. */
  lemma IndexIn(ids: seq<int>, sorted: seq<int>, k: int) returns (i: int)
    requires multiset(sorted) == multiset(ids) && k in ids
    ensures 0 <= i < |sorted| && sorted[i] == k
  {
    assert k in multiset(ids);
    assert k in sorted;
    i :| 0 <= i < |sorted| && sorted[i] == k;
  }

  /** Ordinal comparison of two texts: `a` sorts before or with `b`. */
  predicate TextAtMost(a: string, b: string)
  {
    if a == [] then true
    else if b == [] then false
    else if a[0] != b[0] then a[0] < b[0]
    else TextAtMost(a[1..], b[1..])
  }

  lemma {:induction false} TextAtMostTotal(a: string, b: string)
    ensures TextAtMost(a, b) || TextAtMost(b, a)
  {
    if a != [] && b != [] && a[0] == b[0] {
      TextAtMostTotal(a[1..], b[1..]);
    }
  }

  lemma {:induction false} TextAtMostTransitive(a: string, b: string, c: string)
    requires TextAtMost(a, b) && TextAtMost(b, c)
    ensures TextAtMost(a, c)
  {
    if a != [] && b != [] && c != [] && a[0] == b[0] && b[0] == c[0] {
      TextAtMostTransitive(a[1..], b[1..], c[1..]);
    }
  }

  predicate OrderedByName(r: seq<int>, name: int -> string)
  {
    forall i, j :: 0 <= i < j < |r| ==> TextAtMost(name(r[i]), name(r[j]))
  }

  /** A slice of a sequence ordered by name is ordered by name. */
  lemma OrderedByNameSlice(s: seq<int>, name: int -> string, lo: int, hi: int)
    requires OrderedByName(s, name) && 0 <= lo <= hi <= |s|
    ensures OrderedByName(s[lo..hi], name)
  {
    forall i, j | 0 <= i < j < hi - lo
      ensures TextAtMost(name(s[lo..hi][i]), name(s[lo..hi][j]))
    {
      assert s[lo..hi][i] == s[lo + i] && s[lo..hi][j] == s[lo + j];
    }
  }

  function InsertByName(x: int, r: seq<int>, name: int -> string): (s: seq<int>)
    requires OrderedByName(r, name)
    ensures OrderedByName(s, name)
    ensures multiset(s) == multiset(r) + multiset{x}
  {
    if r == [] then [x]
    else if TextAtMost(name(x), name(r[0])) then
      forall j | 0 <= j < |r|
        ensures TextAtMost(name(x), name(r[j]))
      {
        if j > 0 {
          TextAtMostTransitive(name(x), name(r[0]), name(r[j]));
        }
      }
      assert r == [r[0]] + r[1..];
      [x] + r
    else
      TextAtMostTotal(name(x), name(r[0]));
      var tail := InsertByName(x, r[1..], name);
      forall j | 0 <= j < |tail|
        ensures TextAtMost(name(r[0]), name(tail[j]))
      {
        ElementsOfInsert(x, r[1..], tail, j);
        if tail[j] != x {
          var k :| 0 <= k < |r[1..]| && r[1..][k] == tail[j];
          assert r[k + 1] == tail[j];
        }
      }
      assert r == [r[0]] + r[1..];
      [r[0]] + tail
  }

  /** The ids ordered by name, ascending (LINQ `OrderBy` on a text column). */
  function SortByName(ids: seq<int>, name: int -> string): (r: seq<int>)
    ensures OrderedByName(r, name)
    ensures multiset(r) == multiset(ids)
    ensures |r| == |ids|
  {
    if ids == [] then []
    else
      assert ids == [ids[0]] + ids[1..];
      InsertByName(ids[0], SortByName(ids[1..], name), name)
  }

  /**
   * The page `page` of `pageSize` ids after ordering them by name
   * (`OrderBy(name).Skip((page - 1) * pageSize).Take(pageSize)`), or `None` when
   * the database refuses the page.
   */
  function PageByName(ids: seq<int>, name: int -> string, page: int, pageSize: int): (r: Option<seq<int>>)
    ensures r.None? <==> PageRefused(page, pageSize)
    ensures r.Some? ==> forall k :: k in r.value ==> k in ids
    ensures r.Some? ==> OrderedByName(r.value, name)
    ensures r.Some? ==> |r.value| == Min(pageSize, |ids| - PageStart(|ids|, page, pageSize))
    ensures r.Some? ==> SliceAt(r.value, SortByName(ids, name), PageStart(|ids|, page, pageSize))
  {
    var sorted := SortByName(ids, name);
    if PageRefused(page, pageSize) then None
    else
      PageOfOrderedByName(ids, sorted, name, page, pageSize);
      Page(sorted, page, pageSize)
  }

  /** A page of a name-ordered permutation of `ids` holds ids of `ids`, in name order. */
  lemma PageOfOrderedByName(ids: seq<int>, sorted: seq<int>, name: int -> string, page: int, pageSize: int)
    requires multiset(sorted) == multiset(ids) && OrderedByName(sorted, name)
    requires !PageRefused(page, pageSize)
    ensures var r := Page(sorted, page, pageSize).value;
      (forall k :: k in r ==> k in ids) && OrderedByName(r, name)
  {
    var lo := PageStart(|sorted|, page, pageSize);
    var r := Page(sorted, page, pageSize).value;
    PageIsSlice(sorted, page, pageSize);
    SliceOfPermutation(ids, sorted, lo, lo + |r|);
    OrderedByNameSlice(sorted, name, lo, lo + |r|);
  }

  /**
   * The first `n` ids in date order (`OrderBy(date).Take(n)`): as many as there are up
   * to `n`, in date order, and no id left out comes before one taken.
   */
  function TopByDate(ids: seq<int>, date: int -> Option<int>, descending: bool, n: nat): (r: seq<int>)
    ensures |r| == Min(n, |ids|)
    ensures forall k :: k in r ==> k in ids
    ensures OrderedBy(r, date, descending)
    ensures forall k, j :: k in ids && k !in r && 0 <= j < |r| ==> Precedes(date(r[j]), date(k), descending)
  {
    var sorted := SortByDate(ids, date, descending);
    var r := sorted[..Min(n, |sorted|)];
    forall k | k in r
      ensures k in ids
    {
      assert k in multiset(sorted);
    }
    OrderedBySlice(sorted, date, descending, 0, |r|);
    forall k, j | k in ids && k !in r && 0 <= j < |r|
      ensures Precedes(date(r[j]), date(k), descending)
    {
      assert k in multiset(ids);
      assert k in sorted;
      var i :| 0 <= i < |sorted| && sorted[i] == k;
      assert i >= |r|;
      assert r[j] == sorted[j];
    }
    r
  }
}
