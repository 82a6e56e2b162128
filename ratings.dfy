/**
 * Star ratings of products, aggregated over comments: the per-product `{total, count}` map
 * that the product list fills in a loop, and the mean a single product shows.
 * Means are exact rationals; rounding to one decimal is not modelled.
 */
module Ratings {
  import opened Wrappers

  /** The `["product_id", "star"]` projection of one comment row. */
  datatype StarRow = StarRow(productId: string, star: int)

  /** One entry of `starMap`. */
  datatype Tally = Tally(total: int, count: nat)

  /** How many of `rows` rate product `pid`. */
  function CountFor(rows: seq<StarRow>, pid: string): nat {
    if rows == [] then 0
    else CountFor(rows[..|rows| - 1], pid) + (if rows[|rows| - 1].productId == pid then 1 else 0)
  }

  /** The sum of the stars `rows` give product `pid`. */
  function SumFor(rows: seq<StarRow>, pid: string): int {
    if rows == [] then 0
    else SumFor(rows[..|rows| - 1], pid) + (if rows[|rows| - 1].productId == pid then rows[|rows| - 1].star else 0)
  }

  /** `m` holds an entry exactly for the products rated in `rows`, with their exact sum and count. */
  ghost predicate IsTallyOf(m: map<string, Tally>, rows: seq<StarRow>) {
    && (forall pid :: pid in m <==> CountFor(rows, pid) > 0)
    && (forall pid :: pid in m ==> m[pid] == Tally(SumFor(rows, pid), CountFor(rows, pid)))
  }

  /** The `starMap` loop of the product list: one `+=` step per comment, in comment order. */
  method TallyStars(rows: seq<StarRow>) returns (m: map<string, Tally>)
    ensures forall pid :: pid in m <==> CountFor(rows, pid) > 0
    ensures forall pid :: pid in m ==> m[pid].total == SumFor(rows, pid) && m[pid].count == CountFor(rows, pid)
  {
    m := map[];
    var i := 0;
    while i < |rows|
      invariant 0 <= i <= |rows|
      invariant forall pid :: pid in m <==> CountFor(rows[..i], pid) > 0
      invariant forall pid :: pid in m ==> m[pid] == Tally(SumFor(rows[..i], pid), CountFor(rows[..i], pid))
    {
      var p := rows[i].productId;
      if p !in m {
        UnratedSumsToZero(rows[..i], p);
        m := m[p := Tally(0, 0)];
      }
      m := m[p := Tally(m[p].total + rows[i].star, m[p].count + 1)];
      ghost var seen := rows[..i + 1];
      assert seen[..|seen| - 1] == rows[..i] && seen[|seen| - 1] == rows[i];
      i := i + 1;
    }
    assert rows[..i] == rows;
  }

  lemma {:induction false} UnratedSumsToZero(rows: seq<StarRow>, pid: string)
    requires CountFor(rows, pid) == 0
    ensures SumFor(rows, pid) == 0
  {
    if rows != [] {
      UnratedSumsToZero(rows[..|rows| - 1], pid);
    }
  }

  /** The arithmetic mean of a tally. */
  function Mean(t: Tally): real
    requires t.count > 0
  {
    t.total as real / t.count as real
  }

  /** `avgData ? avgData.total / avgData.count : null`. */
  function ListedStar(m: map<string, Tally>, pid: string): Option<real> {
    if pid in m && m[pid].count > 0 then Some(Mean(m[pid])) else None
  }

  /** The star a product shows in a list: the mean of its own ratings, or null when it has none. */
  function StarOf(rows: seq<StarRow>, pid: string): (r: Option<real>)
    ensures r.None? <==> CountFor(rows, pid) == 0
    ensures r.Some? ==> r.value * CountFor(rows, pid) as real == SumFor(rows, pid) as real
  {
    if CountFor(rows, pid) == 0 then None
    else Some(SumFor(rows, pid) as real / CountFor(rows, pid) as real)
  }

  /** Reading the loop's map gives each product's `StarOf`. */
  lemma ListedStarIsStarOf(m: map<string, Tally>, rows: seq<StarRow>, pid: string)
    requires IsTallyOf(m, rows)
    ensures ListedStar(m, pid) == StarOf(rows, pid)
  {
  }

  /** A rating of another product changes neither the sum nor the count of `pid`. */
  lemma {:induction false} OtherProductsIgnored(rows: seq<StarRow>, extra: seq<StarRow>, pid: string)
    requires forall k :: 0 <= k < |extra| ==> extra[k].productId != pid
    ensures CountFor(rows + extra, pid) == CountFor(rows, pid)
    ensures SumFor(rows + extra, pid) == SumFor(rows, pid)
    ensures StarOf(rows + extra, pid) == StarOf(rows, pid)
    decreases |extra|
  {
    if extra == [] {
      assert rows + extra == rows;
    } else {
      var init := extra[..|extra| - 1];
      var all := rows + extra;
      assert all[..|all| - 1] == rows + init;
      assert all[|all| - 1] == extra[|extra| - 1];
      OtherProductsIgnored(rows, init, pid);
    }
  }

  /** Only the ratings of `pid` itself matter: `StarOf` depends on the rows of `pid` alone. */
  lemma {:induction false} OnlyOwnRatingsCount(rows: seq<StarRow>, keep: set<string>, pid: string)
    requires pid in keep
    ensures CountFor(Restrict(rows, keep), pid) == CountFor(rows, pid)
    ensures SumFor(Restrict(rows, keep), pid) == SumFor(rows, pid)
    ensures StarOf(Restrict(rows, keep), pid) == StarOf(rows, pid)
  {
    if rows != [] {
      var init := rows[..|rows| - 1];
      var last := rows[|rows| - 1];
      OnlyOwnRatingsCount(init, keep, pid);
      RestrictSnoc(init, last, keep);
      assert rows == init + [last];
      if last.productId in keep {
        assert Restrict(rows, keep)[..|Restrict(rows, keep)| - 1] == Restrict(init, keep);
      }
    }
  }

  /** `Comment.findAll({where: {product_id: {[Op.in]: ids}}})`, projected, in table order. */
  function Restrict(rows: seq<StarRow>, keep: set<string>): (r: seq<StarRow>) {
    if rows == [] then []
    else
      var init := Restrict(rows[..|rows| - 1], keep);
      if rows[|rows| - 1].productId in keep then init + [rows[|rows| - 1]] else init
  }

  lemma RestrictSnoc(rows: seq<StarRow>, x: StarRow, keep: set<string>)
    ensures Restrict(rows + [x], keep) == if x.productId in keep then Restrict(rows, keep) + [x] else Restrict(rows, keep)
  {
    assert (rows + [x])[..|rows + [x]| - 1] == rows;
  }

  // ---------------------------------------------------------------------------
  // The counts of the map add up to the number of rows
  // ---------------------------------------------------------------------------

  predicate Distinct(ids: seq<string>) {
    forall i, j :: 0 <= i < j < |ids| ==> ids[i] != ids[j]
  }

  /** The sum of the counts of `ids`. */
  function SumCounts(rows: seq<StarRow>, ids: seq<string>): nat {
    if ids == [] then 0 else CountFor(rows, ids[0]) + SumCounts(rows, ids[1..])
  }

  /** How many of `ids` equal `pid`. */
  function Occurrences(ids: seq<string>, pid: string): nat {
    if ids == [] then 0 else (if ids[0] == pid then 1 else 0) + Occurrences(ids[1..], pid)
  }

  lemma {:induction false} OccursOnce(ids: seq<string>, pid: string)
    requires Distinct(ids) && pid in ids
    ensures Occurrences(ids, pid) == 1
  {
    if ids[0] == pid {
      NotOccurring(ids[1..], pid);
    } else {
      OccursOnce(ids[1..], pid);
    }
  }

  lemma {:induction false} NotOccurring(ids: seq<string>, pid: string)
    requires pid !in ids
    ensures Occurrences(ids, pid) == 0
  {
    if ids != [] {
      NotOccurring(ids[1..], pid);
    }
  }

  /** Adding row `x` adds to the sum of counts once per occurrence of its product in `ids`. */
  lemma {:induction false} SumCountsSnoc(rows: seq<StarRow>, x: StarRow, ids: seq<string>)
    ensures SumCounts(rows + [x], ids) == SumCounts(rows, ids) + Occurrences(ids, x.productId)
  {
    assert (rows + [x])[..|rows + [x]| - 1] == rows;
    if ids != [] {
      SumCountsSnoc(rows, x, ids[1..]);
    }
  }

  /** Over any duplicate-free list of product ids that covers every row, the counts sum to `|rows|`. */
  lemma {:induction false} CountsCoverRows(rows: seq<StarRow>, ids: seq<string>)
    requires Distinct(ids)
    requires forall k :: 0 <= k < |rows| ==> rows[k].productId in ids
    ensures SumCounts(rows, ids) == |rows|
  {
    if rows == [] {
      ZeroCounts(ids);
    } else {
      var init := rows[..|rows| - 1];
      var last := rows[|rows| - 1];
      CountsCoverRows(init, ids);
      assert rows == init + [last];
      SumCountsSnoc(init, last, ids);
      OccursOnce(ids, last.productId);
    }
  }

  lemma {:induction false} ZeroCounts(ids: seq<string>)
    ensures SumCounts([], ids) == 0
  {
    if ids != [] {
      ZeroCounts(ids[1..]);
    }
  }

  /** The counts in the loop's map, over any enumeration of its keys, add up to the rows fetched. */
  lemma TallyCountsAddUp(m: map<string, Tally>, rows: seq<StarRow>, ids: seq<string>)
    requires IsTallyOf(m, rows)
    requires Distinct(ids) && (forall k :: 0 <= k < |ids| ==> ids[k] in m) && (forall pid :: pid in m ==> pid in ids)
    ensures SumCounts(rows, ids) == |rows|
  {
    forall k | 0 <= k < |rows| ensures rows[k].productId in ids {
      RowIsCounted(rows, k);
    }
    CountsCoverRows(rows, ids);
  }

  lemma {:induction false} RowIsCounted(rows: seq<StarRow>, k: nat)
    requires k < |rows|
    ensures CountFor(rows, rows[k].productId) > 0
  {
    var init := rows[..|rows| - 1];
    if k < |rows| - 1 {
      assert init[k] == rows[k];
      RowIsCounted(init, k);
    }
  }

  // ---------------------------------------------------------------------------
  // The single-product average, a `reduce` over the product's comment stars
  // ---------------------------------------------------------------------------

  /** `stars.reduce((sum, s) => sum + s, 0)`. */
  function Sum(stars: seq<int>): int {
    if stars == [] then 0 else Sum(stars[..|stars| - 1]) + stars[|stars| - 1]
  }

  /** The star a product detail shows: 0 with no comments, otherwise the mean of their stars. */
  function AverageStar(stars: seq<int>): (r: real)
    ensures stars == [] ==> r == 0.0
    ensures stars != [] ==> r * |stars| as real == Sum(stars) as real
  {
    if stars == [] then 0.0 else Sum(stars) as real / |stars| as real
  }

  lemma {:induction false} SumBounds(stars: seq<int>, lo: int, hi: int)
    requires forall k :: 0 <= k < |stars| ==> lo <= stars[k] <= hi
    ensures lo * |stars| <= Sum(stars) <= hi * |stars|
  {
    if stars != [] {
      SumBounds(stars[..|stars| - 1], lo, hi);
    }
  }

  /** Every star lies in [1, 5], so a rated product's average does too. */
  lemma AverageWithinStarRange(stars: seq<int>)
    requires stars != []
    requires forall k :: 0 <= k < |stars| ==> 1 <= stars[k] <= 5
    ensures 1.0 <= AverageStar(stars) <= 5.0
  {
    SumBounds(stars, 1, 5);
    QuotientBounds(Sum(stars) as real, |stars| as real, 1.0, 5.0);

  }

  lemma QuotientBounds(sum: real, n: real, lo: real, hi: real)
    requires n > 0.0 && lo * n <= sum <= hi * n
    ensures lo <= sum / n <= hi
  {
    var q := sum / n;
    assert (q - lo) * n == sum - lo * n >= 0.0;
    assert (hi - q) * n == hi * n - sum >= 0.0;
  }

  /** Comments with stars 5, 3 and 4 average 4. */
  lemma AverageExample()
    ensures AverageStar([5, 3, 4]) == 4.0
  {
    assert Sum([5, 3, 4]) == 12 by {
      assert [5, 3, 4][..2] == [5, 3];
      assert [5, 3][..1] == [5];
      assert [5][..0] == [];
    }
  }
}
