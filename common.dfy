// Shared vocabulary of the shop model: optional values, HTTP replies, the string
// predicates the controllers use (blank checks, Contains, StartsWith), LINQ-style
// paging, decimal rendering and parsing of integers, and id allocation.
module Common {

  datatype Option<+T> = None | Some(value: T)

  /** The result of a call that may throw: the returned value, or an exception. */
  datatype Outcome<+T> = Returned(value: T) | Thrown

  /** A controller reply: the HTTP status and the `code` field of the JSON body. */
  datatype Reply = Reply(http: int, code: int)

  const OkReply := Reply(200, 200)
  const UnauthorizedReply := Reply(401, 401)
  const NotFoundReply := Reply(404, 404)
  const ServerErrorReply := Reply(500, 500)

  /** `BadRequest(new { code = ... })`: HTTP 400 whose body carries `code`. */
  function BadRequest(code: int): Reply { Reply(400, code) }

  predicate IsOk(r: Reply) { r == OkReply }

  // ---------------------------------------------------------------------------
  // Strings
  // ---------------------------------------------------------------------------

  /** The characters .NET's `char.IsWhiteSpace` accepts. */
  predicate IsWhiteSpace(c: char)
  {
    c == ' ' || ('\t' <= c <= '\r') || c == '\U{85}' || c == '\U{A0}' || c == '\U{1680}'
    || ('\U{2000}' <= c <= '\U{200A}') || c == '\U{2028}' || c == '\U{2029}'
    || c == '\U{202F}' || c == '\U{205F}' || c == '\U{3000}'
  }

  /** `string.IsNullOrWhiteSpace` on a possibly-null string. */
  predicate Blank(s: Option<string>)
  {
    s.None? || forall i :: 0 <= i < |s.value| ==> IsWhiteSpace(s.value[i])
  }

  /** A field an update sets whenever a value is given. */
  function GivenOr<T>(given: Option<T>, current: Option<T>): Option<T>
  {
    if given.Some? then given else current
  }

  /** A text field an update sets only to a non-blank value. */
  function NonBlankOr(given: Option<string>, current: Option<string>): Option<string>
  {
    if Blank(given) then current else given
  }

  /** `string.IsNullOrEmpty` on a possibly-null string. */
  predicate NullOrEmpty(s: Option<string>)
  {
    s.None? || s.value == ""
  }

  lemma EmptyIsBlank(s: Option<string>)
    requires NullOrEmpty(s)
    ensures Blank(s)
  {
  }

  /** Everything of `s` before `i` and from `j` on is white space. */
  predicate WhiteOutside(s: string, i: int, j: int)
  {
    && 0 <= i <= j <= |s|
    && (forall k :: 0 <= k < i ==> IsWhiteSpace(s[k]))
    && (forall k :: j <= k < |s| ==> IsWhiteSpace(s[k]))
  }

  /**
   * `string.Trim()`: white space removed from both ends, so the result is the piece of
   * the input between its leading and its trailing white space.
   */
  function Trim(s: string): (r: string)
    ensures |r| <= |s|
    ensures r != [] ==> !IsWhiteSpace(r[0]) && !IsWhiteSpace(r[|r| - 1])
    ensures Blank(Some(s)) <==> r == []
    ensures exists i, j :: WhiteOutside(s, i, j) && r == s[i..j]
    decreases |s|
  {
    if |s| > 0 && IsWhiteSpace(s[0]) then
      var r := Trim(s[1..]);
      TrimDropsHead(s, r);
      r
    else if |s| > 0 && IsWhiteSpace(s[|s| - 1]) then
      var r := Trim(s[..|s| - 1]);
      TrimDropsLast(s, s[..|s| - 1], r);
      r
    else
      assert WhiteOutside(s, 0, |s|) && s == s[0..|s|];
      s
  }

  /** A trimmed piece of `s[1..]` is a trimmed piece of `s` when `s[0]` is white space. */
  lemma TrimDropsHead(s: string, r: string)
    requires |s| > 0 && IsWhiteSpace(s[0])
    requires exists i, j :: WhiteOutside(s[1..], i, j) && r == s[1..][i..j]
    ensures exists i, j :: WhiteOutside(s, i, j) && r == s[i..j]
  {
    var i, j :| WhiteOutside(s[1..], i, j) && r == s[1..][i..j];
    assert s[1..][i..j] == s[i + 1..j + 1];
    forall k | 0 <= k < i + 1
      ensures IsWhiteSpace(s[k])
    {
      if k > 0 {
        assert s[k] == s[1..][k - 1];
      }
    }
    forall k | j + 1 <= k < |s|
      ensures IsWhiteSpace(s[k])
    {
      assert s[k] == s[1..][k - 1];
    }
    assert WhiteOutside(s, i + 1, j + 1);
  }

  /** A trimmed piece of all but the last of `s` is a trimmed piece of `s` when the last is white space. */
  lemma TrimDropsLast(s: string, init: string, r: string)
    requires |s| > 0 && IsWhiteSpace(s[|s| - 1]) && init == s[..|s| - 1]
    requires exists i, j :: WhiteOutside(init, i, j) && r == init[i..j]
    ensures exists i, j :: WhiteOutside(s, i, j) && r == s[i..j]
  {
    var i, j :| WhiteOutside(init, i, j) && r == init[i..j];
    assert s[..|s| - 1][i..j] == s[i..j];
    forall k | 0 <= k < i
      ensures IsWhiteSpace(s[k])
    {
      assert s[k] == s[..|s| - 1][k];
    }
    forall k | j <= k < |s|
      ensures IsWhiteSpace(s[k])
    {
      if k < |s| - 1 {
        assert s[k] == s[..|s| - 1][k];
      }
    }
    assert WhiteOutside(s, i, j);
  }

  /** Ordinal `StartsWith`. */
  predicate StartsWith(s: string, prefix: string)
  {
    |prefix| <= |s| && s[..|prefix|] == prefix
  }

  /** Ordinal `Contains`: `part` occurs somewhere in `s` (the empty string occurs everywhere). */
  predicate Contains(s: string, part: string)
    decreases |s|
  {
    StartsWith(s, part) || (|s| > 0 && Contains(s[1..], part))
  }

  /** `part` occurs in `s` at offset `i`. */
  predicate OccursAt(s: string, part: string, i: int)
  {
    0 <= i <= |s| - |part| && s[i..i + |part|] == part
  }

  /** `Contains` holds exactly when `part` occurs at some offset of `s`. */
  lemma {:induction false} ContainsAt(s: string, part: string)
    ensures Contains(s, part) <==> exists i :: OccursAt(s, part, i)
    decreases |s|
  {
    if |s| > 0 {
      ContainsAt(s[1..], part);
      if Contains(s[1..], part) {
        var i :| OccursAt(s[1..], part, i);
        assert s[i + 1..i + 1 + |part|] == s[1..][i..i + |part|];
        assert OccursAt(s, part, i + 1);
      }
      if i :| OccursAt(s, part, i) {
        if i > 0 {
          assert s[1..][i - 1..i - 1 + |part|] == s[i..i + |part|];
          assert OccursAt(s[1..], part, i - 1);
        } else {
          assert StartsWith(s, part);
        }
      }
    } else {
      if i :| OccursAt(s, part, i) {
        assert StartsWith(s, part);
      }
    }
    if StartsWith(s, part) {
      assert OccursAt(s, part, 0);
    }
  }

  // ---------------------------------------------------------------------------
  // Paging (`Skip` / `Take`, which SQL Server runs as OFFSET / FETCH)
  // ---------------------------------------------------------------------------

  function Min(a: int, b: int): int { if a <= b then a else b }
  function Max(a: int, b: int): int { if a <= b then b else a }

  /**
   * `Skip(n)` as `OFFSET n ROWS`: the rows after the first `n`, none when `n` passes the
   * end. SQL Server refuses a negative offset, which is `None`.
   */
  function Skip<T>(s: seq<T>, n: int): (r: Option<seq<T>>)
    ensures r.None? <==> n < 0
    ensures r.Some? ==> |r.value| == |s| - Min(n, |s|)
    ensures r.Some? ==> forall i :: 0 <= i < |r.value| ==> r.value[i] == s[i + Min(n, |s|)]
  {
    if n < 0 then None else Some(s[Min(n, |s|)..])
  }

  /**
   * `Take(n)` as `FETCH NEXT n ROWS ONLY`: the first `n` rows, all of them when there are
   * fewer. SQL Server refuses to fetch no rows or fewer, which is `None`.
   */
  function Take<T>(s: seq<T>, n: int): (r: Option<seq<T>>)
    ensures r.None? <==> n <= 0
    ensures r.Some? ==> |r.value| == Min(n, |s|)
    ensures r.Some? ==> forall i :: 0 <= i < |r.value| ==> r.value[i] == s[i]
  {
    if n <= 0 then None else Some(s[..Min(n, |s|)])
  }

  /** `r` is the run of `s` that starts at index `lo`. */
  ghost predicate SliceAt<T>(r: seq<T>, s: seq<T>, lo: int)
  {
    0 <= lo && lo + |r| <= |s| && forall i :: 0 <= i < |r| ==> r[i] == s[lo + i]
  }

  /** The skip count `(page - 1) * pageSize`, computed in unchecked 32-bit `int` arithmetic. */
  function PageOffset(page: int, pageSize: int): int
  {
    ToInt32((page - 1) * pageSize)
  }

  /** The paged query fails: a negative offset or a fetch of no rows. */
  predicate PageRefused(page: int, pageSize: int)
  {
    PageOffset(page, pageSize) < 0 || pageSize <= 0
  }

  /**
   * The page `page` (counted from 1) of `pageSize` rows: `Skip((page - 1) * pageSize).Take(pageSize)`,
   * or `None` when the database refuses the query.
   */
  function Page<T>(s: seq<T>, page: int, pageSize: int): (r: Option<seq<T>>)
    ensures r.None? <==> PageRefused(page, pageSize)
    ensures r.Some? ==> |r.value| == Min(pageSize, |s| - PageStart(|s|, page, pageSize))
    ensures r.Some? ==> SliceAt(r.value, s, PageStart(|s|, page, pageSize))
  {
    match Skip(s, PageOffset(page, pageSize))
    case None => None
    case Some(rest) => Take(rest, pageSize)
  }

  /** Where page `page` of `pageSize` rows starts in `n` rows: the skip count, at most `n`. */
  function PageStart(n: nat, page: int, pageSize: int): (lo: nat)
    ensures lo <= n
    ensures !PageRefused(page, pageSize) ==> lo == Min(PageOffset(page, pageSize), n)
  {
    Min(Max(PageOffset(page, pageSize), 0), n)
  }

  /** A page is the slice of the rows that starts at its skip count. */
  lemma PageIsSlice<T>(s: seq<T>, page: int, pageSize: int)
    requires !PageRefused(page, pageSize)
    ensures var lo := PageStart(|s|, page, pageSize);
      var r := Page(s, page, pageSize).value;
      lo + |r| <= |s| && r == s[lo..lo + |r|]
  {
  }

  /**
   * The offset is the 32-bit product of the 32-bit `page - 1` and the size, as the
   * source computes it: a page number far past the end can wrap round to the first page.
   */
  lemma PageOffsetWraps(page: int, pageSize: int)
    ensures PageOffset(page, pageSize) == ToInt32(ToInt32(page - 1) * pageSize)
    ensures PageOffset(0x4000_0001, 4) == 0
  {
    var a := page - 1;
    var b := ToInt32(a);
    var q := (a - b) / (2 * Int32Bound);
    assert a - b == q * (2 * Int32Bound);
    assert a * pageSize - b * pageSize == (q * pageSize) * (2 * Int32Bound);
    SameWrap(a * pageSize, b * pageSize, q * pageSize);
  }

  /** Two integers a multiple of 2^32 apart narrow to the same 32-bit value. */
  lemma SameWrap(x: int, y: int, q: int)
    requires x - y == q * (2 * Int32Bound)
    ensures ToInt32(x) == ToInt32(y)
  {
  }

  /** With a positive page size, row `i` (within 32-bit offsets) is on page `i / pageSize + 1`, at offset `i % pageSize`. */
  lemma PageHolds<T>(s: seq<T>, pageSize: int, i: int)
    requires pageSize > 0 && 0 <= i < |s| && i < Int32Bound
    ensures i / pageSize >= 0
    ensures !PageRefused(i / pageSize + 1, pageSize)
    ensures var r := Page(s, i / pageSize + 1, pageSize).value;
      i % pageSize < |r| && r[i % pageSize] == s[i]
  {
    var page := i / pageSize + 1;
    assert (page - 1) * pageSize == i - i % pageSize;
    assert PageOffset(page, pageSize) == i - i % pageSize;
    assert PageStart(|s|, page, pageSize) == i - i % pageSize;
  }

  // ---------------------------------------------------------------------------
  // Decimal text of integers (`ToString()` and `Parse`)
  // ---------------------------------------------------------------------------

  predicate IsDigit(c: char) { '0' <= c <= '9' }

  predicate AllDigits(s: string) { forall i :: 0 <= i < |s| ==> IsDigit(s[i]) }

  function DigitChar(d: nat): char
    requires d < 10
  {
    "0123456789"[d]
  }

  /** The decimal digits of `n`, most significant first, without leading zeros. */
  function DigitText(n: nat): (r: string)
    ensures |r| > 0 && AllDigits(r)
    decreases n
  {
    if n < 10 then [DigitChar(n)] else DigitText(n / 10) + [DigitChar(n % 10)]
  }

  /** `int.ToString()` / `long.ToString()` in the invariant culture. */
  function IntText(n: int): string
  {
    if n < 0 then "-" + DigitText(-n) else DigitText(n)
  }

  /** The value of a string of decimal digits. */
  function DigitsValue(s: string): nat
    requires AllDigits(s)
    decreases |s|
  {
    if s == [] then 0 else DigitsValue(s[..|s| - 1]) * 10 + (s[|s| - 1] as int - '0' as int)
  }

  /** The white space `NumberStyles.Integer` lets a number carry before and after its digits. */
  predicate IsNumberWhite(c: char) { c == ' ' || ('\t' <= c <= '\r') }

  function TrimNumberWhite(s: string): (r: string)
    ensures |r| <= |s|
    decreases |s|
  {
    if |s| > 0 && IsNumberWhite(s[0]) then TrimNumberWhite(s[1..])
    else if |s| > 0 && IsNumberWhite(s[|s| - 1]) then TrimNumberWhite(s[..|s| - 1])
    else s
  }

  /**
   * `long.Parse` without the range check: optional white space around an optional
   * sign and at least one decimal digit. Anything else is a format error (`None`).
   */
  function ParseInteger(s: string): (r: Option<int>)
  {
    var t := TrimNumberWhite(s);
    if |t| > 1 && (t[0] == '-' || t[0] == '+') && AllDigits(t[1..]) then
      Some(if t[0] == '-' then -(DigitsValue(t[1..]) as int) else DigitsValue(t[1..]))
    else if |t| > 0 && AllDigits(t) then Some(DigitsValue(t))
    else None
  }

  lemma {:induction false} DigitTextValue(n: nat)
    ensures DigitsValue(DigitText(n)) == n
    decreases n
  {
    if n >= 10 {
      DigitTextValue(n / 10);
      var t := DigitText(n);
      assert t[..|t| - 1] == DigitText(n / 10);
      assert t[|t| - 1] == DigitChar(n % 10);
    }
  }

  lemma TrimNothing(t: string)
    requires |t| > 0 && !IsNumberWhite(t[0]) && !IsNumberWhite(t[|t| - 1])
    ensures TrimNumberWhite(t) == t
  {
  }

  /** An unsigned run of digits parses as its value. */
  lemma ParseDigits(s: string)
    requires |s| > 0 && AllDigits(s)
    ensures ParseInteger(s) == Some(DigitsValue(s) as int)
  {
    assert IsDigit(s[0]) && IsDigit(s[|s| - 1]);
    TrimNothing(s);
  }

  /** Parsing the text `ToString()` produces gives back the number. */
  lemma IntTextRoundTrip(n: int)
    ensures ParseInteger(IntText(n)) == Some(n)
  {
    var t := IntText(n);
    if n < 0 {
      var d := DigitText(-n);
      DigitTextValue(-n);
      assert t == "-" + d && t[1..] == d;
      TrimNothing(t);
    } else {
      DigitTextValue(n);
      TrimNothing(t);
    }
  }

  const Int32Bound := 0x8000_0000

  /** C#'s unchecked `(int)` cast of a 64-bit value: the low 32 bits, read as two's complement. */
  function ToInt32(v: int): (r: int)
    ensures -Int32Bound <= r < Int32Bound
    ensures (v - r) % (2 * Int32Bound) == 0
    ensures -Int32Bound <= v < Int32Bound ==> r == v
  {
    (v + Int32Bound) % (2 * Int32Bound) - Int32Bound
  }

  // ---------------------------------------------------------------------------
  // Ids
  // ---------------------------------------------------------------------------

  /** A non-empty set has an element (needed to pick one with `:|`). */
  lemma NonEmptyHasElement(s: set<int>)
    requires s != {}
    ensures exists x :: x in s
  {
    if forall x :: x !in s {
      assert false;
    }
  }

  lemma {:induction false} MaxExists(s: set<int>)
    requires s != {}
    ensures exists m :: m in s && forall k :: k in s ==> k <= m
    decreases |s|
  {
    NonEmptyHasElement(s);
    var x :| x in s;
    var rest := s - {x};
    if rest != {} {
      MaxExists(rest);
      var m :| m in rest && forall k :: k in rest ==> k <= m;
      var top := if m < x then x else m;
      forall k | k in s
        ensures k <= top
      {
        if k != x { assert k in rest; }
      }
    } else {
      assert s == {x};
    }
  }

  lemma {:induction false} MinExists(s: set<int>)
    requires s != {}
    ensures exists m :: m in s && forall k :: k in s ==> m <= k
    decreases |s|
  {
    NonEmptyHasElement(s);
    var x :| x in s;
    var rest := s - {x};
    if rest != {} {
      MinExists(rest);
      var m :| m in rest && forall k :: k in rest ==> m <= k;
      var bottom := if x < m then x else m;
      forall k | k in s
        ensures bottom <= k
      {
        if k != x { assert k in rest; }
      }
    } else {
      assert s == {x};
    }
  }

  function MaxOf(s: set<int>): (m: int)
    requires s != {}
    ensures m in s && forall k :: k in s ==> k <= m
  {
    MaxExists(s);
    var m :| m in s && forall k :: k in s ==> k <= m;
    m
  }

  function MinOf(s: set<int>): (m: int)
    requires s != {}
    ensures m in s && forall k :: k in s ==> m <= k
  {
    MinExists(s);
    var m :| m in s && forall k :: k in s ==> m <= k;
    m
  }

  /**
   * The id the database gives the next row of a table whose ids are `used`:
   * one above the largest id in use (1 for an empty table).
   */
  function FreshId(used: set<int>): (r: int)
    ensures r > 0 && r !in used
    ensures forall k :: k in used ==> k < r
  {
    if used == {} then 1 else Max(MaxOf(used), 0) + 1
  }

  /** Ids handed out one after another from `FreshId(used)` are the next `n` integers. */
  lemma FreshIdAfterRun(used: set<int>, all: set<int>, n: nat)
    requires forall k :: k in all <==> k in used || FreshId(used) <= k < FreshId(used) + n
    ensures FreshId(all) == FreshId(used) + n
  {
    var base := FreshId(used);
    if n == 0 {
      assert forall k :: k in all <==> k in used;
      assert all == used;
    } else {
      assert base + n - 1 in all;
      var m := MaxOf(all);
      assert m <= base + n - 1;
    }
  }

  predicate Increasing(r: seq<int>)
  {
    forall i, j :: 0 <= i < j < |r| ==> r[i] < r[j]
  }

  /** The ids of a table in ascending order: the order rows come back when a query has no ORDER BY. */
  function SortedIds(s: set<int>): (r: seq<int>)
    ensures |r| == |s| && Increasing(r)
    ensures forall i :: 0 <= i < |r| ==> r[i] in s
    ensures forall k :: k in s ==> k in r
    decreases |s|
  {
    if s == {} then []
    else
      var m := MinOf(s);
      [m] + SortedIds(s - {m})
  }

  lemma MinOfIncreasing(s: set<int>, r: seq<int>)
    requires Increasing(r) && r != []
    requires forall x :: x in s <==> x in r
    ensures s != {} && MinOf(s) == r[0]
  {
    assert r[0] in r;
    var m := MinOf(s);
    assert m in r;
    assert forall j :: 0 < j < |r| ==> r[0] < r[j];
  }

  lemma TailElements(s: set<int>, r: seq<int>)
    requires Increasing(r) && r != []
    requires forall x :: x in s <==> x in r
    ensures forall x :: x in s - {r[0]} <==> x in r[1..]
  {
    forall x
      ensures x in s - {r[0]} <==> x in r[1..]
    {
      if x in r[1..] {
        var j :| 0 <= j < |r[1..]| && r[1..][j] == x;
        assert r[j + 1] == x && r[0] < r[j + 1];
      }
      if x in s - {r[0]} {
        assert x in r;
        var j :| 0 <= j < |r| && r[j] == x;
        assert r[1..][j - 1] == x;
      }
    }
  }

  /** An ascending sequence holding exactly the elements of `s` is the sorted enumeration of `s`. */
  lemma {:induction false} SortedIdsOfIncreasing(s: set<int>, r: seq<int>)
    requires Increasing(r)
    requires forall x :: x in s <==> x in r
    ensures SortedIds(s) == r
    decreases |r|
  {
    if r == [] {
      assert forall x :: x !in s;
      assert s == {};
    } else {
      MinOfIncreasing(s, r);
      TailElements(s, r);
      SortedIdsOfIncreasing(s - {r[0]}, r[1..]);
    }
  }
}
