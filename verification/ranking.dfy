/**
 * The ranking helper `rank_movies` and the two substring searches of `analyze_movies`
 * (src/analysis.py, lines 22-90): threshold filters, sorts by one numeric column,
 * `head` and column projections over the cleaned table.
 */
module Ranking {
  import opened Values
  import opened Frames
  import opened Text

  // ---------------------------------------------------------------------------
  // Sorting by one column

  /** A cell that `>=` and a numeric sort can handle. */
  predicate Comparable(v: Value)
  {
    v.Num? || v.Missing?
  }

  /** Every row's cell in column `c` is comparable. */
  predicate ColumnComparable(rows: seq<Row>, c: string)
  {
    forall x :: x in rows ==> Comparable(Get(x, c))
  }

  /**
   * `a` may stand before `b` in a sort by one column: numbers in the requested
   * direction, missing values last in both directions (`na_position='last'`).
   */
  predicate Before(a: Value, b: Value, ascending: bool)
  {
    b.Missing? || (a.Num? && b.Num? && (if ascending then a.n <= b.n else a.n >= b.n))
  }

  lemma BeforeTotal(a: Value, b: Value, ascending: bool)
    requires Comparable(a) && Comparable(b)
    ensures Before(a, b, ascending) || Before(b, a, ascending)
  {
  }

  lemma BeforeTransitive(a: Value, b: Value, c: Value, ascending: bool)
    requires Before(a, b, ascending) && Before(b, c, ascending)
    ensures Before(a, c, ascending)
  {
  }

  /** The rows are ordered by column `c`. */
  predicate SortedOn(rows: seq<Row>, c: string, ascending: bool)
  {
    forall i, j :: 0 <= i < j < |rows| ==> Before(Get(rows[i], c), Get(rows[j], c), ascending)
  }

  /** `x` placed in front of the first row it may stand before. */
  function Insert(x: Row, rows: seq<Row>, c: string, ascending: bool): (r: seq<Row>)
    ensures multiset(r) == multiset(rows) + multiset{x}
  {
    if rows == [] then [x]
    else if Before(Get(x, c), Get(rows[0], c), ascending) then [x] + rows
    else
      assert rows == [rows[0]] + rows[1..];
      [rows[0]] + Insert(x, rows[1..], c, ascending)
  }

  lemma {:induction false} InsertSorted(x: Row, rows: seq<Row>, c: string, ascending: bool)
    requires SortedOn(rows, c, ascending) && ColumnComparable(rows, c) && Comparable(Get(x, c))
    ensures SortedOn(Insert(x, rows, c, ascending), c, ascending)
    decreases |rows|
  {
    if rows == [] {
    } else if Before(Get(x, c), Get(rows[0], c), ascending) {
      forall y | y in rows ensures Before(Get(x, c), Get(y, c), ascending) {
        var k :| 0 <= k < |rows| && rows[k] == y;
        if k > 0 { BeforeTransitive(Get(x, c), Get(rows[0], c), Get(y, c), ascending); }
      }
      ConsSorted(x, rows, c, ascending);
    } else {
      var tail := rows[1..];
      SortedTail(rows, c, ascending);
      InsertSorted(x, tail, c, ascending);
      var rest := Insert(x, tail, c, ascending);
      BeforeTotal(Get(x, c), Get(rows[0], c), ascending);
      forall y | y in rest ensures Before(Get(rows[0], c), Get(y, c), ascending) {
        assert y in multiset(rest);
        if y != x {
          assert y in tail;
          var k :| 0 <= k < |tail| && tail[k] == y;
          assert rows[k + 1] == y;
        }
      }
      ConsSorted(rows[0], rest, c, ascending);
    }
  }

  lemma SortedTail(rows: seq<Row>, c: string, ascending: bool)
    requires rows != [] && SortedOn(rows, c, ascending)
    ensures SortedOn(rows[1..], c, ascending)
  {
    var tail := rows[1..];
    forall i, j | 0 <= i < j < |tail| ensures Before(Get(tail[i], c), Get(tail[j], c), ascending) {
      assert tail[i] == rows[i + 1] && tail[j] == rows[j + 1];
    }
  }

  /** A row that may stand before every row of a sorted list heads a sorted list. */
  lemma ConsSorted(h: Row, rows: seq<Row>, c: string, ascending: bool)
    requires SortedOn(rows, c, ascending)
    requires forall y :: y in rows ==> Before(Get(h, c), Get(y, c), ascending)
    ensures SortedOn([h] + rows, c, ascending)
  {
    var r := [h] + rows;
    forall i, j | 0 <= i < j < |r| ensures Before(Get(r[i], c), Get(r[j], c), ascending) {
      assert r[j] == rows[j - 1];
      if i > 0 { assert r[i] == rows[i - 1]; }
    }
  }

  /** `sort_values(c, ascending=...)`: an insertion sort by column `c`. */
  function SortBy(rows: seq<Row>, c: string, ascending: bool): (r: seq<Row>)
    ensures multiset(r) == multiset(rows)
  {
    if rows == [] then []
    else
      assert rows == [rows[0]] + rows[1..];
      Insert(rows[0], SortBy(rows[1..], c, ascending), c, ascending)
  }

  /** A column of numbers and missing values sorts into order, as a permutation of the rows. */
  lemma {:induction false} SortBySorted(rows: seq<Row>, c: string, ascending: bool)
    requires ColumnComparable(rows, c)
    ensures SortedOn(SortBy(rows, c, ascending), c, ascending)
    ensures multiset(SortBy(rows, c, ascending)) == multiset(rows)
    decreases |rows|
  {
    if rows != [] {
      var tail := rows[1..];
      SortBySorted(tail, c, ascending);
      var s := SortBy(tail, c, ascending);
      assert ColumnComparable(s, c) by {
        forall x | x in s ensures Comparable(Get(x, c)) {
          assert x in multiset(tail);
        }
      }
      InsertSorted(rows[0], s, c, ascending);
    }
  }

  /** `head(n)`: the first `n` rows; a negative `n` drops the last `-n` rows instead. */
  function Head(rows: seq<Row>, n: int): (r: seq<Row>)
    ensures n >= 0 ==> |r| == if n < |rows| then n else |rows|
    ensures n < 0 ==> |r| == if |rows| + n < 0 then 0 else |rows| + n
    ensures r == rows[..|r|]
  {
    if n >= 0 then (if n < |rows| then rows[..n] else rows)
    else if |rows| + n < 0 then [] else rows[..|rows| + n]
  }

  /** The rows are all members of the frame, so the frame with just these rows is well formed. */
  lemma RowsOfFrame(f: Frame, rows: seq<Row>)
    requires WellFormed(f) && forall x :: x in rows ==> x in f.rows
    ensures WellFormed(Frame(f.columns, rows))
  {
    forall i | 0 <= i < |rows| ensures rows[i].Keys == Elements(f.columns) {
      assert rows[i] in f.rows;
    }
  }

  // ---------------------------------------------------------------------------
  // rank_movies

  /** `filter_col` and `filter_val`. */
  datatype Threshold = Threshold(column: string, atLeast: real)

  /** `if filter_col:` — an absent or empty column name means no filter. */
  predicate Active(filter: Option<Threshold>)
  {
    filter.Some? && filter.value.column != ""
  }

  /** `data[filter_col] >= filter_val` on one row: a missing cell compares false. */
  predicate Meets(r: Row, t: Threshold)
  {
    Get(r, t.column).Num? && Get(r, t.column).n >= t.atLeast
  }

  /** The rows left after the optional filter. */
  function Candidates(rows: seq<Row>, filter: Option<Threshold>): (r: seq<Row>)
    ensures multiset(r) <= multiset(rows)
    ensures forall x :: x in r <==> x in rows && (Active(filter) ==> Meets(x, filter.value))
  {
    if Active(filter) then
      var t := filter.value;
      forall x ensures x in Filter(rows, y => Meets(y, t)) <==> x in rows && Meets(x, t) {
        FilterMembers(rows, y => Meets(y, t), x);
      }
      Filter(rows, y => Meets(y, t))
    else rows
  }

  /** The rows `rank_movies` picks, before the projection. */
  function Ranked(rows: seq<Row>, metric: string, ascending: bool, topN: int, filter: Option<Threshold>): seq<Row>
  {
    Head(SortBy(Candidates(rows, filter), metric, ascending), topN)
  }

  /** The two columns `rank_movies` shows; a metric named `title` is shown once. */
  function Shown(metric: string): (cols: seq<string>)
    ensures Distinct(cols) && Elements(cols) == {"title", metric}
  {
    WithColumn(["title"], metric)
  }

  /**
   * `rank_movies(df, metric, ascending, top_n, filter_col, filter_val)`: a `KeyError`
   * for an absent filter column, metric or `title`, a `TypeError` for a cell `>=` or
   * the sort cannot compare; otherwise the picked rows, projected.
   */
  function RankMovies(df: Frame, metric: string, ascending: bool, topN: int, filter: Option<Threshold>): (res: Result<Frame, Error>)
    requires WellFormed(df)
    ensures Active(filter) && filter.value.column !in df.columns ==> res == Err(MissingColumn(filter.value.column))
    ensures (Active(filter) && filter.value.column in df.columns && !ColumnComparable(df.rows, filter.value.column))
      ==> res == Err(NotComparable(filter.value.column))
    ensures res.Ok? <==> && (Active(filter) ==> filter.value.column in df.columns && ColumnComparable(df.rows, filter.value.column))
                         && metric in df.columns && ColumnComparable(Candidates(df.rows, filter), metric)
                         && "title" in df.columns
    ensures res.Ok? ==> && WellFormed(res.value) && res.value.columns == Shown(metric)
                        && |res.value.rows| == |Ranked(df.rows, metric, ascending, topN, filter)|
                        && forall i :: 0 <= i < |res.value.rows| ==>
                             res.value.rows[i] == Restrict(Ranked(df.rows, metric, ascending, topN, filter)[i], {"title", metric})
  {
    if Active(filter) && filter.value.column !in df.columns then Err(MissingColumn(filter.value.column))
    else if Active(filter) && !ColumnComparable(df.rows, filter.value.column) then Err(NotComparable(filter.value.column))
    else if metric !in df.columns then Err(MissingColumn(metric))
    else if !ColumnComparable(Candidates(df.rows, filter), metric) then Err(NotComparable(metric))
    else if "title" !in df.columns then Err(MissingColumn("title"))
    else
      var picked := Ranked(df.rows, metric, ascending, topN, filter);
      var sorted := SortBy(Candidates(df.rows, filter), metric, ascending);
      assert forall x :: x in picked ==> x in df.rows by {
        forall x | x in picked ensures x in df.rows {
          assert x in sorted;
          assert x in multiset(Candidates(df.rows, filter));
        }
      }
      RowsOfFrame(df, picked);
      Ok(Select(Frame(df.columns, picked), Shown(metric)))
  }

  /** The picked rows are input rows that pass the filter, no more than asked for, and none repeated beyond its input count. */
  lemma RankedFromInput(rows: seq<Row>, metric: string, ascending: bool, topN: int, filter: Option<Threshold>)
    ensures var r := Ranked(rows, metric, ascending, topN, filter);
      && multiset(r) <= multiset(rows)
      && |r| <= |rows| && (topN >= 0 ==> |r| <= topN)
      && forall x :: x in r ==> x in rows && (Active(filter) ==> Meets(x, filter.value))
  {
    var cands := Candidates(rows, filter);
    var sorted := SortBy(cands, metric, ascending);
    var r := Ranked(rows, metric, ascending, topN, filter);
    assert sorted == r + sorted[|r|..];
    assert multiset(r) <= multiset(sorted);
    forall x | x in r ensures x in rows && (Active(filter) ==> Meets(x, filter.value)) {
      assert x in multiset(sorted);
    }
  }

  /**
   * The picked rows are ordered by the metric, and every candidate left out ranks
   * no higher than every row picked.
   */
  lemma RankedBest(rows: seq<Row>, metric: string, ascending: bool, topN: int, filter: Option<Threshold>)
    requires ColumnComparable(Candidates(rows, filter), metric)
    ensures var r := Ranked(rows, metric, ascending, topN, filter);
      && SortedOn(r, metric, ascending)
      && forall x, y :: x in r && y in multiset(Candidates(rows, filter)) - multiset(r) ==>
           Before(Get(x, metric), Get(y, metric), ascending)
  {
    var cands := Candidates(rows, filter);
    var sorted := SortBy(cands, metric, ascending);
    SortBySorted(cands, metric, ascending);
    var r := Ranked(rows, metric, ascending, topN, filter);
    assert r == sorted[..|r|];
    PrefixBest(sorted, |r|, metric, ascending);
  }

  /** The front of a sorted sequence is sorted and ranks before every row left behind. */
  lemma PrefixBest(s: seq<Row>, k: nat, c: string, ascending: bool)
    requires SortedOn(s, c, ascending) && k <= |s|
    ensures SortedOn(s[..k], c, ascending)
    ensures forall x, y :: x in s[..k] && y in multiset(s) - multiset(s[..k]) ==> Before(Get(x, c), Get(y, c), ascending)
  {
    SortedSplit(s, k, c, ascending);
    assert s == s[..k] + s[k..];
    assert multiset(s) - multiset(s[..k]) == multiset(s[k..]);
  }

  /** A sorted sequence cut in two: the front is sorted and ranks before every row of the back. */
  lemma SortedSplit(s: seq<Row>, k: nat, c: string, ascending: bool)
    requires SortedOn(s, c, ascending) && k <= |s|
    ensures SortedOn(s[..k], c, ascending)
    ensures forall x, y :: x in s[..k] && y in s[k..] ==> Before(Get(x, c), Get(y, c), ascending)
  {
    forall x, y | x in s[..k] && y in s[k..] ensures Before(Get(x, c), Get(y, c), ascending) {
      var i :| 0 <= i < k && s[..k][i] == x;
      var j :| 0 <= j < |s| - k && s[k..][j] == y;
      assert s[i] == x && s[k + j] == y;
    }
  }

  /**
   * What `rank_movies` returns: at most `top_n` rows, ordered by the metric, each
   * the `title` and metric of an input row that passes the filter.
   */
  lemma RankMoviesSound(df: Frame, metric: string, ascending: bool, topN: int, filter: Option<Threshold>)
    requires WellFormed(df) && RankMovies(df, metric, ascending, topN, filter).Ok?
    ensures var out := RankMovies(df, metric, ascending, topN, filter).value;
      && (topN >= 0 ==> |out.rows| <= topN) && |out.rows| <= |df.rows|
      && SortedOn(out.rows, metric, ascending)
      && forall x :: x in out.rows ==>
           exists y :: y in df.rows && (Active(filter) ==> Meets(y, filter.value)) && x == Restrict(y, {"title", metric})
  {
    var out := RankMovies(df, metric, ascending, topN, filter).value;
    var r := Ranked(df.rows, metric, ascending, topN, filter);
    RankedFromInput(df.rows, metric, ascending, topN, filter);
    RankedBest(df.rows, metric, ascending, topN, filter);
    forall i, j | 0 <= i < j < |out.rows| ensures Before(Get(out.rows[i], metric), Get(out.rows[j], metric), ascending) {
      assert Get(out.rows[i], metric) == Get(r[i], metric) && Get(out.rows[j], metric) == Get(r[j], metric);
    }
    forall x | x in out.rows
      ensures exists y :: y in df.rows && (Active(filter) ==> Meets(y, filter.value)) && x == Restrict(y, {"title", metric})
    {
      var i :| 0 <= i < |out.rows| && out.rows[i] == x;
      assert r[i] in r;
    }
  }

  /** One `rank_movies` call of `analyze_movies`; `top_n` is left at 5 in every call. */
  datatype Query = Query(metric: string, ascending: bool, filter: Option<Threshold>)

  const TopN: int := 5

  /** The ten rankings of lines 30-68, in order. */
  const Queries: seq<Query> := [
    Query("revenue_musd", false, None),
    Query("budget_musd", false, None),
    Query("profit", false, None),
    Query("profit", true, None),
    Query("roi", false, Some(Threshold("budget_musd", 10.0))),
    Query("roi", true, Some(Threshold("budget_musd", 10.0))),
    Query("vote_count", false, None),
    Query("vote_average", false, Some(Threshold("vote_count", 10.0))),
    Query("vote_average", true, Some(Threshold("vote_count", 10.0))),
    Query("popularity", false, None)
  ]

  /** One `rank_movies` call of lines 30-68. */
  function RankQuery(df: Frame, q: Query): Result<Frame, Error>
    requires WellFormed(df)
  {
    RankMovies(df, q.metric, q.ascending, TopN, q.filter)
  }

  /** The results in order when every one succeeds; otherwise the first error. */
  function Collect(results: seq<Result<Frame, Error>>): (res: Result<seq<Frame>, Error>)
    ensures res.Ok? ==> |res.value| == |results| && forall i :: 0 <= i < |results| ==> results[i] == Ok(res.value[i])
    ensures res.Err? ==> exists i :: 0 <= i < |results| && results[i] == Err(res.error) && forall k :: 0 <= k < i ==> results[k].Ok?
  {
    if results == [] then Ok([])
    else if results[0].Err? then Err(results[0].error)
    else
      var rest := Collect(results[1..]);
      if rest.Err? then
        assert exists i :: 0 <= i < |results| && results[i] == Err(rest.error) && forall k :: 0 <= k < i ==> results[k].Ok? by {
          var i :| 0 <= i < |results[1..]| && results[1..][i] == Err(rest.error) && forall k :: 0 <= k < i ==> results[1..][k].Ok?;
          assert results[i + 1] == Err(rest.error);
          forall k | 0 <= k < i + 1 ensures results[k].Ok? {
            if k > 0 { assert results[k] == results[1..][k - 1]; }
          }
        }
        Err(rest.error)
      else
        var all := [results[0].value] + rest.value;
        assert forall i :: 0 <= i < |results| ==> results[i] == Ok(all[i]) by {
          forall i | 0 <= i < |results| ensures results[i] == Ok(all[i]) {
            if i > 0 { assert results[i] == results[1..][i - 1] && all[i] == rest.value[i - 1]; }
          }
        }
        Ok(all)
  }

  /** The rankings in order, stopping at the first call that raises. */
  function RankAll(df: Frame, qs: seq<Query>): (res: Result<seq<Frame>, Error>)
    requires WellFormed(df)
    ensures res.Ok? ==> |res.value| == |qs| && forall i :: 0 <= i < |qs| ==> RankQuery(df, qs[i]) == Ok(res.value[i])
    ensures res.Err? ==>
      exists i :: (0 <= i < |qs| && RankQuery(df, qs[i]) == Err(res.error)
                   && forall k :: 0 <= k < i ==> RankQuery(df, qs[k]).Ok?)
  {
    var results := seq(|qs|, i requires 0 <= i < |qs| => RankQuery(df, qs[i]));
    var res := Collect(results);
    if res.Ok? then res
    else
      assert exists i :: (0 <= i < |qs| && RankQuery(df, qs[i]) == Err(res.error)
                          && forall k :: 0 <= k < i ==> RankQuery(df, qs[k]).Ok?) by {
        var i :| 0 <= i < |results| && results[i] == Err(res.error) && forall k :: 0 <= k < i ==> results[k].Ok?;
        forall k | 0 <= k < i ensures RankQuery(df, qs[k]).Ok? {
          assert results[k] == RankQuery(df, qs[k]);
        }
        assert RankQuery(df, qs[i]) == Err(res.error);
      }
      res
  }

  // ---------------------------------------------------------------------------
  // The substring searches

  /** `df[column].str.contains(pattern, na=False)`. */
  datatype Mask = Mask(column: string, pattern: string)

  /** A cell that is text and contains the pattern; any other cell does not match. */
  predicate Matches(r: Row, m: Mask)
  {
    Get(r, m.column).Str? && Contains(Get(r, m.column).s, m.pattern)
  }

  predicate MatchesAll(r: Row, masks: seq<Mask>)
  {
    forall i :: 0 <= i < |masks| ==> Matches(r, masks[i])
  }

  /** The first mask whose column is absent, if any. */
  function AbsentMask(masks: seq<Mask>, cols: seq<string>): (r: Option<string>)
    ensures r.None? <==> forall i :: 0 <= i < |masks| ==> masks[i].column in cols
    ensures r.Some? ==> r.value !in cols
  {
    if masks == [] then None
    else if masks[0].column !in cols then Some(masks[0].column)
    else
      var rest := AbsentMask(masks[1..], cols);
      assert forall i :: 1 <= i < |masks| ==> masks[i] == masks[1..][i - 1];
      rest
  }

  /** The first column of `shown` that is absent, if any. */
  function AbsentColumn(shown: seq<string>, cols: seq<string>): (r: Option<string>)
    ensures r.None? <==> Elements(shown) <= Elements(cols)
    ensures r.Some? ==> r.value in shown && r.value !in cols
  {
    if shown == [] then None
    else if shown[0] !in cols then
      assert shown[0] in Elements(shown);
      Some(shown[0])
    else
      var rest := AbsentColumn(shown[1..], cols);
      assert Elements(shown) == {shown[0]} + Elements(shown[1..]);
      rest
  }

  /** The rows that match every mask. */
  function Matching(rows: seq<Row>, masks: seq<Mask>): (r: seq<Row>)
    ensures multiset(r) <= multiset(rows)
    ensures forall x :: x in r <==> x in rows && MatchesAll(x, masks)
  {
    forall x ensures x in Filter(rows, y => MatchesAll(y, masks)) <==> x in rows && MatchesAll(x, masks) {
      FilterMembers(rows, y => MatchesAll(y, masks), x);
    }
    Filter(rows, y => MatchesAll(y, masks))
  }

  /**
   * `df[mask_1 & ... & mask_n].sort_values(metric, ascending=...)[shown]`: a `KeyError`
   * for an absent mask column, metric or shown column, a `TypeError` for a metric
   * cell the sort cannot compare.
   */
  function Search(df: Frame, masks: seq<Mask>, metric: string, ascending: bool, shown: seq<string>): (res: Result<Frame, Error>)
    requires WellFormed(df) && Distinct(shown)
    ensures res.Ok? <==> && (forall i :: 0 <= i < |masks| ==> masks[i].column in df.columns)
                         && metric in df.columns && ColumnComparable(Matching(df.rows, masks), metric)
                         && Elements(shown) <= Elements(df.columns)
    ensures res.Err? && AbsentMask(masks, df.columns).Some? ==> res.error == MissingColumn(AbsentMask(masks, df.columns).value)
    ensures res.Ok? ==> && WellFormed(res.value) && res.value.columns == shown
                        && |res.value.rows| == |Matching(df.rows, masks)|
                        && forall i :: 0 <= i < |res.value.rows| ==>
                             res.value.rows[i] == Restrict(SortBy(Matching(df.rows, masks), metric, ascending)[i], Elements(shown))
  {
    var absent := AbsentMask(masks, df.columns);
    if absent.Some? then Err(MissingColumn(absent.value))
    else if metric !in df.columns then Err(MissingColumn(metric))
    else if !ColumnComparable(Matching(df.rows, masks), metric) then Err(NotComparable(metric))
    else
      var missing := AbsentColumn(shown, df.columns);
      if missing.Some? then Err(MissingColumn(missing.value))
      else
        var sorted := SortBy(Matching(df.rows, masks), metric, ascending);
        assert forall x :: x in sorted ==> x in df.rows by {
          forall x | x in sorted ensures x in df.rows {
            assert x in multiset(Matching(df.rows, masks));
          }
        }
        RowsOfFrame(df, sorted);
        Ok(Select(Frame(df.columns, sorted), shown))
  }

  /** A search on a shown metric returns its rows ordered by the metric. */
  lemma SearchSorted(df: Frame, masks: seq<Mask>, metric: string, ascending: bool, shown: seq<string>)
    requires WellFormed(df) && Distinct(shown) && Search(df, masks, metric, ascending, shown).Ok?
    requires metric in Elements(shown)
    ensures SortedOn(Search(df, masks, metric, ascending, shown).value.rows, metric, ascending)
  {
    var out := Search(df, masks, metric, ascending, shown).value;
    var sorted := SortBy(Matching(df.rows, masks), metric, ascending);
    SortBySorted(Matching(df.rows, masks), metric, ascending);
    forall i, j | 0 <= i < j < |out.rows| ensures Before(Get(out.rows[i], metric), Get(out.rows[j], metric), ascending) {
      assert Get(out.rows[i], metric) == Get(sorted[i], metric) && Get(out.rows[j], metric) == Get(sorted[j], metric);
    }
  }

  /**
   * A search returns exactly the matching rows, projected: every shown row comes from
   * a matching input row and every matching input row is shown.
   */
  lemma SearchRows(df: Frame, masks: seq<Mask>, metric: string, ascending: bool, shown: seq<string>)
    requires WellFormed(df) && Distinct(shown) && Search(df, masks, metric, ascending, shown).Ok?
    ensures var out := Search(df, masks, metric, ascending, shown).value;
      && (forall x :: x in out.rows ==> exists y :: y in df.rows && MatchesAll(y, masks) && x == Restrict(y, Elements(shown)))
      && (forall y :: y in df.rows && MatchesAll(y, masks) ==> Restrict(y, Elements(shown)) in out.rows)
  {
    var out := Search(df, masks, metric, ascending, shown).value;
    var matching := Matching(df.rows, masks);
    ProjectedPermutation(matching, SortBy(matching, metric, ascending), out.rows, Elements(shown));
  }

  /** The projection of a reordering holds the projection of every row, and nothing else. */
  lemma ProjectedPermutation(src: seq<Row>, sorted: seq<Row>, out: seq<Row>, keep: set<string>)
    requires multiset(sorted) == multiset(src)
    requires |out| == |sorted| && forall i :: 0 <= i < |out| ==> out[i] == Restrict(sorted[i], keep)
    ensures forall x :: x in out ==> exists y :: y in src && x == Restrict(y, keep)
    ensures forall y :: y in src ==> Restrict(y, keep) in out
  {
    forall x | x in out ensures exists y :: y in src && x == Restrict(y, keep) {
      var i :| 0 <= i < |out| && out[i] == x;
      assert sorted[i] in multiset(src);
    }
    forall y | y in src ensures Restrict(y, keep) in out {
      assert y in multiset(sorted);
      var i :| 0 <= i < |sorted| && sorted[i] == y;
      assert out[i] == Restrict(y, keep);
    }
  }

  /** Search 1: Science Fiction and Action genres, Bruce Willis in the cast, best rated first. */
  const BruceWillisMasks: seq<Mask> := [Mask("genres", "Science Fiction"), Mask("genres", "Action"), Mask("cast", "Bruce Willis")]

  const BruceWillisShown: seq<string> := ["title", "vote_average", "release_date"]

  function BruceWillisMovies(df: Frame): Result<Frame, Error>
    requires WellFormed(df)
  {
    ShownDistinct();
    Search(df, BruceWillisMasks, "vote_average", false, BruceWillisShown)
  }

  predicate StarsBruceWillis(y: Row)
  {
    Matches(y, Mask("genres", "Science Fiction")) && Matches(y, Mask("genres", "Action")) && Matches(y, Mask("cast", "Bruce Willis"))
  }

  /** Search 2: Uma Thurman in the cast, a director matching Quentin Tarantino, shortest first. */
  const UmaThurmanMasks: seq<Mask> := [Mask("cast", "Uma Thurman"), Mask("director", "Quentin Tarantino")]

  const UmaThurmanShown: seq<string> := ["title", "runtime", "release_date"]

  function UmaThurmanMovies(df: Frame): Result<Frame, Error>
    requires WellFormed(df)
  {
    ShownDistinct();
    Search(df, UmaThurmanMasks, "runtime", true, UmaThurmanShown)
  }

  predicate StarsUmaThurman(y: Row)
  {
    Matches(y, Mask("cast", "Uma Thurman")) && Matches(y, Mask("director", "Quentin Tarantino"))
  }

  lemma ShownDistinct()
    ensures Distinct(BruceWillisShown) && "vote_average" in Elements(BruceWillisShown)
    ensures Distinct(UmaThurmanShown) && "runtime" in Elements(UmaThurmanShown)
  {
    assert "vote_average" in BruceWillisShown && "runtime" in UmaThurmanShown;
  }

  lemma MasksMeaning(y: Row)
    ensures MatchesAll(y, BruceWillisMasks) <==> StarsBruceWillis(y)
    ensures MatchesAll(y, UmaThurmanMasks) <==> StarsUmaThurman(y)
  {
    if MatchesAll(y, BruceWillisMasks) {
      assert Matches(y, BruceWillisMasks[0]) && Matches(y, BruceWillisMasks[1]) && Matches(y, BruceWillisMasks[2]);
    }
    if StarsBruceWillis(y) {
      forall i | 0 <= i < |BruceWillisMasks| ensures Matches(y, BruceWillisMasks[i]) {
        assert BruceWillisMasks[i] in {Mask("genres", "Science Fiction"), Mask("genres", "Action"), Mask("cast", "Bruce Willis")};
      }
    }
    if MatchesAll(y, UmaThurmanMasks) {
      assert Matches(y, UmaThurmanMasks[0]) && Matches(y, UmaThurmanMasks[1]);
    }
    if StarsUmaThurman(y) {
      forall i | 0 <= i < |UmaThurmanMasks| ensures Matches(y, UmaThurmanMasks[i]) {
        assert UmaThurmanMasks[i] in {Mask("cast", "Uma Thurman"), Mask("director", "Quentin Tarantino")};
      }
    }
  }

  /**
   * Every row of search 1 shows a film whose genres name Science Fiction and Action
   * and whose cast names Bruce Willis; the rows are ordered best rated first.
   */
  lemma BruceWillisSound(df: Frame)
    requires WellFormed(df) && BruceWillisMovies(df).Ok?
    ensures forall x :: x in BruceWillisMovies(df).value.rows ==>
              exists y :: y in df.rows && StarsBruceWillis(y) && x == Restrict(y, Elements(BruceWillisShown))
    ensures SortedOn(BruceWillisMovies(df).value.rows, "vote_average", false)
  {
    ShownDistinct();
    SearchSorted(df, BruceWillisMasks, "vote_average", false, BruceWillisShown);
    SearchRows(df, BruceWillisMasks, "vote_average", false, BruceWillisShown);
    forall y | MatchesAll(y, BruceWillisMasks) ensures StarsBruceWillis(y) {
      MasksMeaning(y);
    }
  }

  /**
   * Every row of search 2 shows a film whose cast names Uma Thurman and whose
   * director matches Quentin Tarantino; the rows are ordered shortest first.
   */
  lemma UmaThurmanSound(df: Frame)
    requires WellFormed(df) && UmaThurmanMovies(df).Ok?
    ensures forall x :: x in UmaThurmanMovies(df).value.rows ==>
              exists y :: y in df.rows && StarsUmaThurman(y) && x == Restrict(y, Elements(UmaThurmanShown))
    ensures SortedOn(UmaThurmanMovies(df).value.rows, "runtime", true)
  {
    ShownDistinct();
    SearchSorted(df, UmaThurmanMasks, "runtime", true, UmaThurmanShown);
    SearchRows(df, UmaThurmanMasks, "runtime", true, UmaThurmanShown);
    forall y | MatchesAll(y, UmaThurmanMasks) ensures StarsUmaThurman(y) {
      MasksMeaning(y);
    }
  }

  /**
   * A name among the `|`-joined names of a cell is found by the substring search;
   * so a film whose cast list names Bruce Willis matches the cast mask.
   */
  lemma JoinedNameMatches(r: Row, c: string, names: seq<string>, name: string)
    requires Get(r, c) == Str(Join(names)) && name in names
    ensures Matches(r, Mask(c, name))
  {
    JoinContainsPart(names, name);
  }
}
