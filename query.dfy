/**
 * What a `findAndCountAll` over one table computes: keep the rows the WHERE clause admits,
 * order them by one column, count them, then cut out the LIMIT/OFFSET window.
 * String columns are ordered by code point and a row's sort key is a `Cell`.
 */
module Query {
  import opened Wrappers

  /** The numeric `page` and `limit` query parameters, assumed to be positive integers. */
  type Pos = n: int | n >= 1 witness 1

  /** A query-string parameter JavaScript treats as given: present and not the empty string. */
  predicate Given(o: Option<string>) {
    o.Some? && o.value != []
  }

  /** The parameter when given, otherwise `default`. */
  function OrDefault(o: Option<string>, default: string): (r: string)
    ensures Given(o) ==> r == o.value
    ensures !Given(o) ==> r == default
  {
    if Given(o) then o.value else default
  }

  // ---------------------------------------------------------------------------
  // WHERE: filtering
  // ---------------------------------------------------------------------------

  /** The rows of `s` that `keep` admits, in table order. */
  function Filter<T(!new)>(s: seq<T>, keep: T -> bool): (r: seq<T>)
    ensures |r| <= |s|
    ensures forall x :: x in r <==> x in s && keep(x)
  {
    if s == [] then []
    else
      var rest := Filter(s[1..], keep);
      assert s == [s[0]] + s[1..];
      if keep(s[0]) then [s[0]] + rest else rest
  }

  /** Each admitted row is kept as often as the table holds it, and no other row is. */
  lemma {:induction false} FilterCounts<T(!new)>(s: seq<T>, keep: T -> bool, x: T)
    ensures multiset(Filter(s, keep))[x] == if keep(x) then multiset(s)[x] else 0
  {
    if s != [] {
      FilterCounts(s[1..], keep, x);
      assert s == [s[0]] + s[1..];
    }
  }

  /** Filtering a concatenation filters each part. */
  lemma {:induction false} FilterAppend<T(!new)>(a: seq<T>, b: seq<T>, keep: T -> bool)
    ensures Filter(a + b, keep) == Filter(a, keep) + Filter(b, keep)
  {
    if a == [] {
      assert a + b == b;
    } else {
      var ab := a + b;
      assert ab != [] && ab[0] == a[0];
      assert ab[1..] == a[1..] + b;
      FilterAppend(a[1..], b, keep);
      if keep(a[0]) {
        calc {
          Filter(ab, keep);
          [a[0]] + Filter(ab[1..], keep);
          [a[0]] + (Filter(a[1..], keep) + Filter(b, keep));
          ([a[0]] + Filter(a[1..], keep)) + Filter(b, keep);
          Filter(a, keep) + Filter(b, keep);
        }
      } else {
        calc {
          Filter(ab, keep);
          Filter(ab[1..], keep);
          Filter(a[1..], keep) + Filter(b, keep);
          Filter(a, keep) + Filter(b, keep);
        }
      }
    }
  }

  /** Filters that agree on every row select the same rows. */
  lemma {:induction false} FilterExt<T(!new)>(s: seq<T>, f: T -> bool, g: T -> bool)
    requires forall x :: f(x) == g(x)
    ensures Filter(s, f) == Filter(s, g)
  {
    if s != [] {
      FilterExt(s[1..], f, g);
    }
  }

  /** Whether `pat` occurs in `s` as a contiguous run (a `LIKE '%pat%'` without wildcards). */
  predicate Contains(s: string, pat: string) {
    exists i :: 0 <= i <= |s| && OccursAt(s, pat, i)
  }

  /** `pat` starts at position `i` of `s`. */
  predicate OccursAt(s: string, pat: string, i: int) {
    0 <= i <= |s| - |pat| && s[i..i + |pat|] == pat
  }

  /** An optional exact-match filter: absent admits every value. */
  predicate MatchesIfGiven<K(==)>(given: Option<K>, actual: K) {
    given.Some? ==> actual == given.value
  }

  /** An optional inclusive range `[lo, hi]`: each absent bound admits everything on its side. */
  predicate WithinIfGiven(lo: Option<int>, hi: Option<int>, x: int) {
    (lo.Some? ==> x >= lo.value) && (hi.Some? ==> x <= hi.value)
  }

  // ---------------------------------------------------------------------------
  // ORDER BY: one column, ascending
  // ---------------------------------------------------------------------------

  /** The value of a row's sort column. A column holds cells of one kind. */
  datatype Cell = IntCell(i: int) | StrCell(s: string)

  /** Lexicographic order on strings, by character code. */
  predicate StrLe(a: string, b: string)
    decreases |a|
  {
    a == [] || (b != [] && (a[0] < b[0] || (a[0] == b[0] && StrLe(a[1..], b[1..]))))
  }

  predicate CellLe(a: Cell, b: Cell) {
    match (a, b)
    case (IntCell(x), IntCell(y)) => x <= y
    case (StrCell(x), StrCell(y)) => StrLe(x, y)
    case (IntCell(_), StrCell(_)) => true
    case (StrCell(_), IntCell(_)) => false
  }

  lemma {:induction false} StrLeTotal(a: string, b: string)
    ensures StrLe(a, b) || StrLe(b, a)
    decreases |a|
  {
    if a != [] && b != [] && a[0] == b[0] {
      StrLeTotal(a[1..], b[1..]);
    }
  }

  lemma {:induction false} StrLeTransitive(a: string, b: string, c: string)
    requires StrLe(a, b) && StrLe(b, c)
    ensures StrLe(a, c)
    decreases |a|
  {
    if a != [] && a[0] == b[0] && b[0] == c[0] {
      StrLeTransitive(a[1..], b[1..], c[1..]);
    }
  }

  lemma CellLeTotal(a: Cell, b: Cell)
    ensures CellLe(a, b) || CellLe(b, a)
  {
    if a.StrCell? && b.StrCell? {
      StrLeTotal(a.s, b.s);
    }
  }

  lemma CellLeTransitive(a: Cell, b: Cell, c: Cell)
    requires CellLe(a, b) && CellLe(b, c)
    ensures CellLe(a, c)
  {
    if a.StrCell? && b.StrCell? && c.StrCell? {
      StrLeTransitive(a.s, b.s, c.s);
    }
  }

  /** `s` is in ascending order of `key`. */
  predicate SortedBy<T>(s: seq<T>, key: T -> Cell) {
    forall i, j :: 0 <= i < j < |s| ==> CellLe(key(s[i]), key(s[j]))
  }

  /** Puts `x` before the first element of the sorted `s` that it does not exceed. */
  function Insert<T>(x: T, s: seq<T>, key: T -> Cell): (r: seq<T>)
    requires SortedBy(s, key)
    ensures SortedBy(r, key)
    ensures multiset(r) == multiset(s) + multiset{x}
    ensures |r| == |s| + 1
  {
    if s == [] then [x]
    else if CellLe(key(x), key(s[0])) then
      LowerBound(x, s, key);
      SortedCons(x, s, key);
      [x] + s
    else
      var rest := Insert(x, s[1..], key);
      CellLeTotal(key(x), key(s[0]));
      HeadBelowRest(x, s, rest, key);
      SortedCons(s[0], rest, key);
      assert s == [s[0]] + s[1..];
      [s[0]] + rest
  }

  /** A sorted sequence prefixed by a lower bound of all its elements is sorted. */
  lemma SortedCons<T>(h: T, s: seq<T>, key: T -> Cell)
    requires SortedBy(s, key)
    requires forall j :: 0 <= j < |s| ==> CellLe(key(h), key(s[j]))
    ensures SortedBy([h] + s, key)
  {
    var r := [h] + s;
    forall i, j | 0 <= i < j < |r| ensures CellLe(key(r[i]), key(r[j])) {
      if i > 0 {
        assert r[i] == s[i - 1] && r[j] == s[j - 1];
      } else {
        assert r[j] == s[j - 1];
      }
    }
  }

  /** What does not exceed the head of a sorted sequence does not exceed any element. */
  lemma LowerBound<T>(x: T, s: seq<T>, key: T -> Cell)
    requires SortedBy(s, key) && s != [] && CellLe(key(x), key(s[0]))
    ensures forall j :: 0 <= j < |s| ==> CellLe(key(x), key(s[j]))
  {
    forall j | 0 < j < |s| ensures CellLe(key(x), key(s[j])) {
      CellLeTransitive(key(x), key(s[0]), key(s[j]));
    }
  }

  /** The head of a sorted `s` bounds from below the tail with `x` inserted, once `x` is above it. */
  lemma HeadBelowRest<T>(x: T, s: seq<T>, rest: seq<T>, key: T -> Cell)
    requires SortedBy(s, key) && s != [] && CellLe(key(s[0]), key(x))
    requires multiset(rest) == multiset(s[1..]) + multiset{x}
    ensures forall j :: 0 <= j < |rest| ==> CellLe(key(s[0]), key(rest[j]))
  {
    forall j | 0 <= j < |rest| ensures CellLe(key(s[0]), key(rest[j])) {
      assert rest[j] in multiset(rest);
      if rest[j] != x {
        assert rest[j] in s[1..];
        var k :| 0 <= k < |s[1..]| && s[1..][k] == rest[j];
        assert s[k + 1] == rest[j];
      }
    }
  }

  /** The rows of `s` in ascending order of `key`; rows with equal keys keep their table order. */
  function SortBy<T>(s: seq<T>, key: T -> Cell): (r: seq<T>)
    ensures SortedBy(r, key)
    ensures multiset(r) == multiset(s)
    ensures |r| == |s|
  {
    if s == [] then []
    else
      assert s == [s[0]] + s[1..];
      Insert(s[0], SortBy(s[1..], key), key)
  }

  // ---------------------------------------------------------------------------
  // LIMIT / OFFSET
  // ---------------------------------------------------------------------------

  /** The rows a query returns: all of them, or `limit` rows starting at `offset`. */
  datatype Window = All | Range(offset: nat, limit: Pos)

  function Min(a: int, b: int): int {
    if a <= b then a else b
  }

  /** The rows of `s` inside window `w`. */
  function Slice<T>(s: seq<T>, w: Window): (r: seq<T>)
    ensures w.All? ==> r == s
    ensures w.Range? ==> |r| == if w.offset >= |s| then 0 else Min(w.limit, |s| - w.offset)
    ensures w.Range? ==> forall k :: 0 <= k < |r| ==> r[k] == s[w.offset + k]
  {
    match w
    case All => s
    case Range(offset, limit) =>
      if offset >= |s| then [] else s[offset..Min(offset + limit, |s|)]
  }

  /** The window for 1-based page `page` of `limit` rows: `offset = (page - 1) * limit`. */
  function PageWindow(page: Pos, limit: Pos): (w: Window)
    ensures w.Range? && w.limit == limit && w.offset == (page - 1) * limit
  {
    Range((page - 1) * limit, limit)
  }

  /** `Math.ceil(total / limit)`. */
  function CeilDiv(total: nat, limit: Pos): (r: nat)
    ensures r * limit >= total
    ensures r == 0 || (r - 1) * limit < total
  {
    var q := total / limit;
    var m := total % limit;
    assert total == q * limit + m;
    if m == 0 then q
    else
      assert (q + 1) * limit == q * limit + limit;
      q + 1
  }

  /** Zero rows make zero pages; otherwise the last page is the one holding the last row. */
  lemma CeilDivZero(limit: Pos)
    ensures CeilDiv(0, limit) == 0
  {
  }

  /**
   * Page `page` of `limit` rows is non-empty exactly when `page <= CeilDiv(|s|, limit)`:
   * `totalPages` counts the pages that hold rows.
   */
  lemma PagesHoldingRows<T>(s: seq<T>, page: Pos, limit: Pos)
    ensures |Slice(s, PageWindow(page, limit))| > 0 <==> page <= CeilDiv(|s|, limit)
  {
    var n := CeilDiv(|s|, limit);
    var offset := (page - 1) * limit;
    if page <= n {
      assert (page - 1) * limit <= (n - 1) * limit by {
        MulMonotone(page - 1, n - 1, limit);
      }
    } else {
      assert n * limit <= (page - 1) * limit by {
        MulMonotone(n, page - 1, limit);
      }
    }
  }

  /** Page `page` starts inside the `count` rows exactly when `page <= CeilDiv(count, limit)`. */
  lemma PageInRange(count: nat, page: Pos, limit: Pos)
    ensures (page - 1) * limit < count <==> page <= CeilDiv(count, limit)
  {
    var n := CeilDiv(count, limit);
    if page <= n {
      MulMonotone(page - 1, n - 1, limit);
    } else {
      MulMonotone(n, page - 1, limit);
    }
  }

  lemma MulMonotone(a: int, b: int, c: nat)
    requires a <= b
    ensures a * c <= b * c
  {
  }

  /** The second page of ten holds rows 11 to 20 (indices 10 to 19) when there are that many. */
  lemma SecondPageOfTen<T>(s: seq<T>)
    requires |s| >= 20
    ensures Slice(s, PageWindow(2, 10)) == s[10..20]
  {
  }

  // ---------------------------------------------------------------------------
  // The result of findAndCountAll, and the list envelope
  // ---------------------------------------------------------------------------

  /** `findAndCountAll`: `count` is the number of matching rows before the window is applied. */
  datatype Found<T> = Found(rows: seq<T>, count: nat)

  /** `s` orders the rows of `m` by `key`: it is sorted and a permutation of `m`. */
  ghost predicate SortingOf<T>(s: seq<T>, m: seq<T>, key: T -> Cell) {
    SortedBy(s, key) && multiset(s) == multiset(m)
  }

  /**
   * `rows` is window `w` of the rows of `table` that `keep` admits, once they are put in
   * ascending order of `key`; rows with equal keys may come in any order.
   */
  ghost predicate WindowOfSorted<T(!new)>(rows: seq<T>, table: seq<T>, keep: T -> bool, key: T -> Cell, w: Window) {
    exists s :: SortingOf(s, Filter(table, keep), key) && rows == Slice(s, w)
  }

  function FindAndCount<T(!new)>(table: seq<T>, keep: T -> bool, key: T -> Cell, w: Window): (r: Found<T>)
    ensures r.count == |Filter(table, keep)|
    ensures forall x :: x in r.rows ==> x in table && keep(x)
    ensures SortedBy(r.rows, key)
    ensures w.All? ==> multiset(r.rows) == multiset(Filter(table, keep))
    ensures WindowOfSorted(r.rows, table, keep, key, w)
    ensures w.Range? ==> |r.rows| == if w.offset >= r.count then 0 else Min(w.limit, r.count - w.offset)
  {
    var matching := Filter(table, keep);
    var sorted := SortBy(matching, key);
    var rows := Slice(sorted, w);
    assert SortingOf(sorted, matching, key) && rows == Slice(sorted, w);
    forall x | x in rows ensures x in table && keep(x) {
      var k :| 0 <= k < |rows| && rows[k] == x;
      if w.Range? {
        assert x == sorted[w.offset + k];
      }
      assert x in multiset(sorted);
    }
    forall i, j | 0 <= i < j < |rows| ensures CellLe(key(rows[i]), key(rows[j])) {
      if w.Range? {
        assert rows[i] == sorted[w.offset + i] && rows[j] == sorted[w.offset + j];
      }
    }
    Found(rows, |matching|)
  }

  /** Two WHERE clauses that agree on every row give the same result. */
  lemma FindAndCountExt<T(!new)>(table: seq<T>, f: T -> bool, g: T -> bool, key: T -> Cell, w: Window)
    requires forall x :: f(x) == g(x)
    ensures FindAndCount(table, f, key, w) == FindAndCount(table, g, key, w)
  {
    FilterExt(table, f, g);
  }

  /** The JSON list response `{data, total, page?, totalPages?}`. */
  datatype Envelope<T> = Envelope(data: seq<T>, total: nat, page: Option<int>, totalPages: Option<int>)

  /**
   * The envelope of the lists where paging is optional: `page` and `totalPages` appear
   * exactly when both `page` and `limit` were given.
   */
  function OptionalPaging<T>(data: seq<T>, total: nat, page: Option<Pos>, limit: Option<Pos>): (e: Envelope<T>)
    ensures e.data == data && e.total == total
    ensures e.page.Some? <==> page.Some? && limit.Some?
    ensures e.totalPages.Some? <==> page.Some? && limit.Some?
    ensures e.page.Some? ==> e.page.value == page.value && e.totalPages.value == CeilDiv(total, limit.value)
  {
    if page.Some? && limit.Some? then Envelope(data, total, Some(page.value), Some(CeilDiv(total, limit.value)))
    else Envelope(data, total, None, None)
  }
}
