/**
 * The franchise flag and the two group-by tables of `analyze_movies`
 * (src/analysis.py, lines 96-140), and the function itself on a table it updates
 * in place.
 */
module Aggregation {
  import opened Values
  import opened Frames
  import opened Ranking
  import Normalize

  // ---------------------------------------------------------------------------
  // The franchise flag

  /**
   * Python truthiness of a cell (`True if x else False`). A missing cell of the
   * flattened collection column is the `None` that line 41 of src/process_data.py
   * produces for a collection whose `name` is JSON null, and `None` is falsy.
   */
  predicate Truthy(v: Value)
  {
    match v
    case Missing => false
    case Bool(b) => b
    case Num(n) => n != 0.0
    case Str(s) => s != ""
    case Date(_) => true
    case List(xs) => xs != []
    case Dict(m) => m != map[]
  }

  function FranchiseFlag(r: Row): Value
  {
    Bool(Truthy(Get(r, "belongs_to_collection")))
  }

  /** Line 96: `df['is_franchise']` from the truthiness of `belongs_to_collection`. */
  function FlagFranchises(df: Frame): (res: Result<Frame, Error>)
    requires WellFormed(df)
    ensures res.Err? <==> "belongs_to_collection" !in df.columns
    ensures res.Err? ==> res.error == MissingColumn("belongs_to_collection")
    ensures res.Ok? ==> && WellFormed(res.value) && "is_franchise" in res.value.columns
                        && Elements(res.value.columns) == Elements(df.columns) + {"is_franchise"}
                        && |res.value.rows| == |df.rows|
                        && forall i :: 0 <= i < |df.rows| ==> res.value.rows[i] == df.rows[i]["is_franchise" := FranchiseFlag(df.rows[i])]
  {
    if "belongs_to_collection" !in df.columns then Err(MissingColumn("belongs_to_collection"))
    else Ok(SetColumn(df, "is_franchise", FranchiseFlag))
  }

  /**
   * The flag of a raw `belongs_to_collection` value once line 41 of
   * src/process_data.py has flattened it: a franchise film exactly when the value is
   * an object whose `name` is truthy. A collection without a name, or with a null
   * name, does not make a franchise film.
   */
  lemma CollectionFlag(v: Value)
    ensures Truthy(Normalize.CollectionName(v)) <==> v.Dict? && "name" in v.fields && Truthy(v.fields["name"])
    ensures Normalize.CollectionName(v) == Missing <==> v.Dict? && "name" in v.fields && v.fields["name"] == Missing
    ensures v.Dict? && "name" in v.fields && v.fields["name"] == Missing ==> !Truthy(Normalize.CollectionName(v))
  {
  }

  /**
   * On the cleaned table, where `belongs_to_collection` holds the collection's name
   * or "", a film is a franchise film exactly when the name is not empty, and no
   * other cell changes.
   */
  lemma FlagOfName(df: Frame, i: nat, name: string)
    requires WellFormed(df) && "belongs_to_collection" in df.columns && i < |df.rows|
    requires df.rows[i]["belongs_to_collection"] == Str(name)
    ensures var out := FlagFranchises(df).value.rows[i];
      && out["is_franchise"] == Bool(name != "")
      && forall c :: c != "is_franchise" ==> Get(out, c) == Get(df.rows[i], c)
  {
    assert "belongs_to_collection" in Elements(df.columns);
  }

  // ---------------------------------------------------------------------------
  // Grouping

  /** The rows whose column `key` holds `k`, in order. */
  function GroupRows(rows: seq<Row>, key: string, k: Value): (g: seq<Row>)
    ensures forall x :: x in g <==> x in rows && Get(x, key) == k
  {
    if rows == [] then []
    else (if Get(rows[0], key) == k then [rows[0]] else []) + GroupRows(rows[1..], key, k)
  }

  /** Aggregating one group: a left fold of `step` over its rows. */
  function FoldRows<T>(acc: T, step: (T, Row) -> T, rows: seq<Row>): T
    decreases |rows|
  {
    if rows == [] then acc else FoldRows(step(acc, rows[0]), step, rows[1..])
  }

  function Lookup<T>(m: map<Value, T>, k: Value, zero: T): T
  {
    if k in m then m[k] else zero
  }

  /**
   * `groupby(key).agg(...)` in one pass over the rows: each row updates the entry of
   * its key. Missing keys are dropped, as `groupby` does by default.
   */
  function GroupInto<T>(acc: map<Value, T>, rows: seq<Row>, key: string, zero: T, step: (T, Row) -> T): map<Value, T>
    decreases |rows|
  {
    if rows == [] then acc
    else
      var k := Get(rows[0], key);
      var next := if k == Missing then acc else acc[k := step(Lookup(acc, k, zero), rows[0])];
      GroupInto(next, rows[1..], key, zero, step)
  }

  function GroupBy<T>(rows: seq<Row>, key: string, zero: T, step: (T, Row) -> T): map<Value, T>
  {
    GroupInto(map[], rows, key, zero, step)
  }

  /** The one-pass grouping has an entry for every key present and no other. */
  lemma {:induction false} GroupIntoKeys<T>(acc: map<Value, T>, rows: seq<Row>, key: string, zero: T, step: (T, Row) -> T, k: Value)
    ensures k in GroupInto(acc, rows, key, zero, step) <==> k in acc || (k != Missing && exists x :: x in rows && Get(x, key) == k)
    decreases |rows|
  {
    if rows != [] {
      var k0 := Get(rows[0], key);
      var next := if k0 == Missing then acc else acc[k0 := step(Lookup(acc, k0, zero), rows[0])];
      GroupIntoKeys(next, rows[1..], key, zero, step, k);
      assert rows == [rows[0]] + rows[1..];
      if k != Missing && k !in acc && exists x :: x in rows && Get(x, key) == k {
        var x :| x in rows && Get(x, key) == k;
        if x != rows[0] {
          assert x in rows[1..];
        }
      }
    }
  }

  /**
   * The one-pass grouping gives each key the same value as folding that key's
   * group on its own: `groupby` computes each group separately.
   */
  lemma {:induction false} GroupIntoValues<T>(acc: map<Value, T>, rows: seq<Row>, key: string, zero: T, step: (T, Row) -> T, k: Value)
    requires k != Missing
    ensures Lookup(GroupInto(acc, rows, key, zero, step), k, zero) == FoldRows(Lookup(acc, k, zero), step, GroupRows(rows, key, k))
    decreases |rows|
  {
    if rows != [] {
      var k0 := Get(rows[0], key);
      var next := if k0 == Missing then acc else acc[k0 := step(Lookup(acc, k0, zero), rows[0])];
      GroupIntoValues(next, rows[1..], key, zero, step, k);
      if k0 == k {
        assert GroupRows(rows, key, k) == [rows[0]] + GroupRows(rows[1..], key, k);
        assert Lookup(next, k, zero) == step(Lookup(acc, k, zero), rows[0]);
      } else {
        assert GroupRows(rows, key, k) == GroupRows(rows[1..], key, k);
        assert Lookup(next, k, zero) == Lookup(acc, k, zero);
      }
    }
  }

  /** `GroupBy` has one entry per key present, holding the fold of that key's group. */
  lemma GroupBySpec<T>(rows: seq<Row>, key: string, zero: T, step: (T, Row) -> T)
    ensures forall k :: k in GroupBy(rows, key, zero, step) <==> k != Missing && exists x :: x in rows && Get(x, key) == k
    ensures forall k :: k in GroupBy(rows, key, zero, step) ==> GroupBy(rows, key, zero, step)[k] == FoldRows(zero, step, GroupRows(rows, key, k))
  {
    forall k ensures k in GroupBy(rows, key, zero, step) <==> k != Missing && exists x :: x in rows && Get(x, key) == k {
      GroupIntoKeys(map[], rows, key, zero, step, k);
    }
    forall k | k in GroupBy(rows, key, zero, step) ensures GroupBy(rows, key, zero, step)[k] == FoldRows(zero, step, GroupRows(rows, key, k)) {
      GroupIntoValues(map[], rows, key, zero, step, k);
    }
  }

  // ---------------------------------------------------------------------------
  // Counts and sums

  predicate HasTitle(r: Row)
  {
    Get(r, "title") != Missing
  }

  /** `'title': 'count'`: the number of rows whose title is present. */
  function TitleCount(rows: seq<Row>): (n: nat)
    ensures n == |Filter(rows, HasTitle)|
  {
    if rows == [] then 0
    else (if Get(rows[0], "title") != Missing then 1 else 0) + TitleCount(rows[1..])
  }

  /** A cell's contribution to a sum: missing cells are skipped. */
  function Addend(v: Value): real
  {
    if v.Num? then v.n else 0.0
  }

  /** `'sum'` of column `c`. */
  function Total(rows: seq<Row>, c: string): real
  {
    if rows == [] then 0.0 else Addend(Get(rows[0], c)) + Total(rows[1..], c)
  }

  /** `movie_count`, `total_budget` and `total_revenue` of one collection. */
  datatype FranchiseStats = FranchiseStats(movieCount: nat, totalBudget: real, totalRevenue: real)

  function FranchiseStep(s: FranchiseStats, r: Row): FranchiseStats
  {
    FranchiseStats(
      s.movieCount + (if Get(r, "title") != Missing then 1 else 0),
      s.totalBudget + Addend(Get(r, "budget_musd")),
      s.totalRevenue + Addend(Get(r, "revenue_musd")))
  }

  /** Folding the franchise step adds the group's count and sums to the start. */
  lemma {:induction false} FranchiseFold(acc: FranchiseStats, rows: seq<Row>)
    ensures FoldRows(acc, FranchiseStep, rows) ==
      FranchiseStats(acc.movieCount + TitleCount(rows), acc.totalBudget + Total(rows, "budget_musd"), acc.totalRevenue + Total(rows, "revenue_musd"))
    decreases |rows|
  {
    if rows != [] {
      FranchiseFold(FranchiseStep(acc, rows[0]), rows[1..]);
    }
  }

  /** `movie_count` and `total_revenue` of one director. */
  datatype DirectorStats = DirectorStats(movieCount: nat, totalRevenue: real)

  function DirectorStep(s: DirectorStats, r: Row): DirectorStats
  {
    DirectorStats(s.movieCount + (if Get(r, "title") != Missing then 1 else 0), s.totalRevenue + Addend(Get(r, "revenue_musd")))
  }

  lemma {:induction false} DirectorFold(acc: DirectorStats, rows: seq<Row>)
    ensures FoldRows(acc, DirectorStep, rows) == DirectorStats(acc.movieCount + TitleCount(rows), acc.totalRevenue + Total(rows, "revenue_musd"))
    decreases |rows|
  {
    if rows != [] {
      DirectorFold(DirectorStep(acc, rows[0]), rows[1..]);
    }
  }

  // ---------------------------------------------------------------------------
  // franchise_df and director_df

  predicate IsFranchise(r: Row)
  {
    Get(r, "is_franchise") == Bool(true)
  }

  /** The columns `franchise_df` aggregates, in the order of its `agg` dictionary. */
  const FranchiseColumns: seq<string> := ["is_franchise", "belongs_to_collection", "title", "budget_musd", "revenue_musd", "vote_average"]

  /** The columns `director_df` aggregates, in the order of its `agg` dictionary. */
  const DirectorColumns: seq<string> := ["director", "title", "revenue_musd", "vote_average"]

  /** The group-by of line 113 can hash the collection of every franchise row. */
  predicate FranchiseKeysHashable(df: Frame)
  {
    forall x :: x in df.rows && IsFranchise(x) ==> Hashable(Get(x, "belongs_to_collection"))
  }

  /** The group-by of line 127 can hash the director of every row. */
  predicate DirectorsHashable(df: Frame)
  {
    forall x :: x in df.rows ==> Hashable(Get(x, "director"))
  }

  /**
   * Lines 113-119, without the means: per collection, over the franchise rows only.
   * A `KeyError` for an absent column, else a `TypeError` for a collection that
   * cannot be hashed.
   */
  function FranchiseTable(df: Frame): (res: Result<map<Value, FranchiseStats>, Error>)
    ensures res.Err? <==> !(Elements(FranchiseColumns) <= Elements(df.columns)) || !FranchiseKeysHashable(df)
    ensures res.Err? && !(Elements(FranchiseColumns) <= Elements(df.columns)) ==>
      res.error.MissingColumn? && res.error.name in FranchiseColumns && res.error.name !in df.columns
    ensures res.Err? && Elements(FranchiseColumns) <= Elements(df.columns) ==> res.error == Unhashable("belongs_to_collection")
  {
    var absent := AbsentColumn(FranchiseColumns, df.columns);
    if absent.Some? then Err(MissingColumn(absent.value))
    else if !FranchiseKeysHashable(df) then Err(Unhashable("belongs_to_collection"))
    else Ok(GroupBy(Filter(df.rows, IsFranchise), "belongs_to_collection", FranchiseStats(0, 0.0, 0.0), FranchiseStep))
  }

  /**
   * `franchise_df` has one entry per collection of a franchise row, counting that
   * collection's franchise films with a title and summing their budgets and revenues.
   */
  lemma FranchiseTableSpec(df: Frame)
    requires FranchiseTable(df).Ok?
    ensures var t := FranchiseTable(df).value;
      && (forall k :: k in t <==> k != Missing && exists x :: x in df.rows && IsFranchise(x) && Get(x, "belongs_to_collection") == k)
      && forall k :: k in t ==>
           var g := GroupRows(Filter(df.rows, IsFranchise), "belongs_to_collection", k);
           t[k] == FranchiseStats(TitleCount(g), Total(g, "budget_musd"), Total(g, "revenue_musd"))
  {
    var rows := Filter(df.rows, IsFranchise);
    var t := FranchiseTable(df).value;
    GroupBySpec(rows, "belongs_to_collection", FranchiseStats(0, 0.0, 0.0), FranchiseStep);
    forall x ensures x in rows <==> x in df.rows && IsFranchise(x) {
      FilterMembers(df.rows, IsFranchise, x);
    }
    forall k | k in t
      ensures var g := GroupRows(rows, "belongs_to_collection", k);
        t[k] == FranchiseStats(TitleCount(g), Total(g, "budget_musd"), Total(g, "revenue_musd"))
    {
      FranchiseFold(FranchiseStats(0, 0.0, 0.0), GroupRows(rows, "belongs_to_collection", k));
    }
  }

  /**
   * Lines 127-135, without the mean: per director, with the empty director removed.
   * A `KeyError` for an absent column, else a `TypeError` for a director that cannot
   * be hashed.
   */
  function DirectorTable(df: Frame): (res: Result<map<Value, DirectorStats>, Error>)
    ensures res.Err? <==> !(Elements(DirectorColumns) <= Elements(df.columns)) || !DirectorsHashable(df)
    ensures res.Err? && !(Elements(DirectorColumns) <= Elements(df.columns)) ==>
      res.error.MissingColumn? && res.error.name in DirectorColumns && res.error.name !in df.columns
    ensures res.Err? && Elements(DirectorColumns) <= Elements(df.columns) ==> res.error == Unhashable("director")
    ensures res.Ok? ==> Str("") !in res.value
  {
    var absent := AbsentColumn(DirectorColumns, df.columns);
    if absent.Some? then Err(MissingColumn(absent.value))
    else if !DirectorsHashable(df) then Err(Unhashable("director"))
    else Ok(GroupBy(df.rows, "director", DirectorStats(0, 0.0), DirectorStep) - {Str("")})
  }

  /**
   * `director_df` has one entry per director named in some row other than "",
   * counting that director's films with a title and summing their revenues.
   */
  lemma DirectorTableSpec(df: Frame)
    requires DirectorTable(df).Ok?
    ensures var t := DirectorTable(df).value;
      && (forall k :: k in t <==> k != Missing && k != Str("") && exists x :: x in df.rows && Get(x, "director") == k)
      && forall k :: k in t ==>
           var g := GroupRows(df.rows, "director", k);
           t[k] == DirectorStats(TitleCount(g), Total(g, "revenue_musd"))
  {
    var t := DirectorTable(df).value;
    GroupBySpec(df.rows, "director", DirectorStats(0, 0.0), DirectorStep);
    forall k | k in t
      ensures var g := GroupRows(df.rows, "director", k);
        t[k] == DirectorStats(TitleCount(g), Total(g, "revenue_musd"))
    {
      DirectorFold(DirectorStats(0, 0.0), GroupRows(df.rows, "director", k));
    }
  }

  /**
   * After the flag, the franchise table's keys are exactly the truthy collection
   * values of the table: every film of a listed collection is a franchise film.
   */
  lemma FlaggedFranchiseKeys(df: Frame)
    requires WellFormed(df) && FlagFranchises(df).Ok? && FranchiseTable(FlagFranchises(df).value).Ok?
    ensures forall k :: k in FranchiseTable(FlagFranchises(df).value).value <==>
              k != Missing && Truthy(k) && exists x :: x in df.rows && Get(x, "belongs_to_collection") == k
  {
    var flagged := FlagFranchises(df).value;
    var t := FranchiseTable(flagged).value;
    FranchiseTableSpec(flagged);
    forall k ensures k in t <==> k != Missing && Truthy(k) && exists x :: x in df.rows && Get(x, "belongs_to_collection") == k {
      FlaggedWitness(df, k);
    }
  }

  lemma FlaggedWitness(df: Frame, k: Value)
    requires WellFormed(df) && FlagFranchises(df).Ok?
    ensures (exists x :: x in FlagFranchises(df).value.rows && IsFranchise(x) && Get(x, "belongs_to_collection") == k) <==>
            (Truthy(k) && exists x :: x in df.rows && Get(x, "belongs_to_collection") == k)
  {
    var flagged := FlagFranchises(df).value;
    if exists x :: x in flagged.rows && IsFranchise(x) && Get(x, "belongs_to_collection") == k {
      var x :| x in flagged.rows && IsFranchise(x) && Get(x, "belongs_to_collection") == k;
      var i := IndexOf(flagged.rows, x);
      FlagRow(df, i);
      assert df.rows[i] in df.rows;
    }
    if Truthy(k) && exists x :: x in df.rows && Get(x, "belongs_to_collection") == k {
      var x :| x in df.rows && Get(x, "belongs_to_collection") == k;
      var i := IndexOf(df.rows, x);
      FlagRow(df, i);
      assert flagged.rows[i] in flagged.rows;
    }
  }

  lemma IndexOf(rows: seq<Row>, x: Row) returns (i: nat)
    requires x in rows
    ensures i < |rows| && rows[i] == x
  {
    i :| i < |rows| && rows[i] == x;
  }

  /** Row `i` is flagged exactly when its collection value is truthy, and keeps that value. */
  lemma FlagRow(df: Frame, i: nat)
    requires WellFormed(df) && FlagFranchises(df).Ok? && i < |df.rows|
    ensures var y := FlagFranchises(df).value.rows[i];
      && (IsFranchise(y) <==> Truthy(Get(df.rows[i], "belongs_to_collection")))
      && Get(y, "belongs_to_collection") == Get(df.rows[i], "belongs_to_collection")
  {
  }

  // ---------------------------------------------------------------------------
  // analyze_movies

  /** The columns `franchise_stats` aggregates (lines 98-104); only their presence is modelled. */
  const StatsColumns: seq<string> := ["is_franchise", "revenue_musd", "roi", "budget_musd", "popularity", "vote_average"]

  /** What `analyze_movies` prints and returns, without the means and the median. */
  datatype Analysis = Analysis(
    rankings: seq<Frame>,
    bruceWillis: Frame,
    umaThurman: Frame,
    franchises: map<Value, FranchiseStats>,
    directors: map<Value, DirectorStats>)

  /** The searches and rankings ran without raising, so line 96 is reached. */
  predicate ReachesFlag(df: Frame)
    requires WellFormed(df)
  {
    RankAll(df, Queries).Ok? && BruceWillisMovies(df).Ok? && UmaThurmanMovies(df).Ok?
  }

  /** The rankings index these columns, so they exist once the rankings pass. */
  lemma RankedColumns(df: Frame)
    requires WellFormed(df) && RankAll(df, Queries).Ok?
    ensures "title" in df.columns && "revenue_musd" in df.columns && "budget_musd" in df.columns
    ensures "roi" in df.columns && "popularity" in df.columns && "vote_average" in df.columns
  {
    QueryMetrics();
    RankedMetric(df, Queries, 0);
    RankedMetric(df, Queries, 1);
    RankedMetric(df, Queries, 4);
    RankedMetric(df, Queries, 7);
    RankedMetric(df, Queries, 9);
  }

  lemma QueryMetrics()
    ensures |Queries| == 10
    ensures Queries[0].metric == "revenue_musd" && Queries[1].metric == "budget_musd" && Queries[4].metric == "roi"
    ensures Queries[7].metric == "vote_average" && Queries[9].metric == "popularity"
  {
  }

  lemma RankedMetric(df: Frame, qs: seq<Query>, i: nat)
    requires WellFormed(df) && RankAll(df, qs).Ok? && i < |qs|
    ensures "title" in df.columns && qs[i].metric in df.columns
  {
    assert RankQuery(df, qs[i]).Ok?;
  }

  /** The search on directors indexes `director`. */
  lemma SearchedColumns(df: Frame)
    requires WellFormed(df) && UmaThurmanMovies(df).Ok?
    ensures "director" in df.columns
  {
    ShownDistinct();
    assert UmaThurmanMasks[1].column == "director";
  }

  /** Every truthy collection of the table, the ones line 96 flags, can be hashed. */
  predicate CollectionKeysHashable(df: Frame)
  {
    forall x :: x in df.rows && Truthy(Get(x, "belongs_to_collection")) ==> Hashable(Get(x, "belongs_to_collection"))
  }

  /** The flag makes exactly the truthy collections group keys. */
  lemma FlaggedKeys(df: Frame)
    requires WellFormed(df) && FlagFranchises(df).Ok?
    ensures FranchiseKeysHashable(FlagFranchises(df).value) <==> CollectionKeysHashable(df)
  {
    var f := FlagFranchises(df).value;
    if !FranchiseKeysHashable(f) {
      var x :| x in f.rows && IsFranchise(x) && !Hashable(Get(x, "belongs_to_collection"));
      var i := IndexOf(f.rows, x);
      FlagRow(df, i);
      assert df.rows[i] in df.rows;
    }
    if !CollectionKeysHashable(df) {
      var x :| x in df.rows && Truthy(Get(x, "belongs_to_collection")) && !Hashable(Get(x, "belongs_to_collection"));
      var i := IndexOf(df.rows, x);
      FlagRow(df, i);
      assert f.rows[i] in f.rows;
    }
  }

  /** The flag leaves the directors alone. */
  lemma FlaggedDirectors(df: Frame)
    requires WellFormed(df) && FlagFranchises(df).Ok?
    ensures DirectorsHashable(FlagFranchises(df).value) <==> DirectorsHashable(df)
  {
    var f := FlagFranchises(df).value;
    if !DirectorsHashable(f) {
      var x :| x in f.rows && !Hashable(Get(x, "director"));
      var i := IndexOf(f.rows, x);
      assert f.rows[i] == df.rows[i]["is_franchise" := FranchiseFlag(df.rows[i])];
      assert df.rows[i] in df.rows;
    }
    if !DirectorsHashable(df) {
      var x :| x in df.rows && !Hashable(Get(x, "director"));
      var i := IndexOf(df.rows, x);
      assert f.rows[i] == df.rows[i]["is_franchise" := FranchiseFlag(df.rows[i])];
      assert f.rows[i] in f.rows;
    }
  }

  /**
   * Once the rankings and the searches pass and the flag is set, every column the
   * three aggregations index exists, so lines 98-135 raise no `KeyError`; the two
   * group-bys raise a `TypeError` exactly when a key cannot be hashed.
   */
  lemma AggregationsDefined(df: Frame)
    requires WellFormed(df) && ReachesFlag(df) && FlagFranchises(df).Ok?
    ensures var f := FlagFranchises(df).value;
      && Elements(StatsColumns) <= Elements(f.columns)
      && Elements(FranchiseColumns) <= Elements(f.columns) && Elements(DirectorColumns) <= Elements(f.columns)
      && (FranchiseTable(f).Ok? <==> CollectionKeysHashable(df))
      && (DirectorTable(f).Ok? <==> DirectorsHashable(df))
  {
    FlaggedKeys(df);
    FlaggedDirectors(df);
    var f := FlagFranchises(df).value;
    RankedColumns(df);
    SearchedColumns(df);
    assert Elements(df.columns) + {"is_franchise"} <= Elements(f.columns);
    assert Elements(StatsColumns) <= Elements(df.columns) + {"is_franchise"};
    assert Elements(FranchiseColumns) <= Elements(df.columns) + {"is_franchise"};
    assert Elements(DirectorColumns) <= Elements(df.columns);
  }

  /**
   * `analyze_movies` as a value: each step in order, stopping at the first that
   * raises. The `KeyError`s of lines 98-135 cannot occur at that point; the
   * group-bys of lines 113 and 127 raise a `TypeError` on a key that cannot be hashed.
   */
  function Analyze(df: Frame): (res: Result<Analysis, Error>)
    requires WellFormed(df)
    ensures res.Err? <==> !ReachesFlag(df) || "belongs_to_collection" !in df.columns
                          || !CollectionKeysHashable(df) || !DirectorsHashable(df)
    ensures ReachesFlag(df) && res.Err? ==>
      res.error == if "belongs_to_collection" !in df.columns then MissingColumn("belongs_to_collection")
                   else if !CollectionKeysHashable(df) then Unhashable("belongs_to_collection")
                   else Unhashable("director")
  {
    var ranked := RankAll(df, Queries);
    if ranked.Err? then Err(ranked.error)
    else
      var bruce := BruceWillisMovies(df);
      if bruce.Err? then Err(bruce.error)
      else
        var uma := UmaThurmanMovies(df);
        if uma.Err? then Err(uma.error)
        else
          var flagged := FlagFranchises(df);
          if flagged.Err? then Err(flagged.error)
          else
            AggregationsDefined(df);
            var franchises := FranchiseTable(flagged.value);
            if franchises.Err? then Err(franchises.error)
            else
              var directors := DirectorTable(flagged.value);
              if directors.Err? then Err(directors.error)
              else Ok(Analysis(ranked.value, bruce.value, uma.value, franchises.value, directors.value))
  }

  /** The caller's table, holding a movie table that `analyze_movies` updates in place. */
  class MovieTable {
    var frame: Frame

    constructor (df: Frame)
      ensures frame == df
    {
      frame := df;
    }

    /**
     * `analyze_movies(df)`: the result of every step, and the caller's table gains
     * the `is_franchise` column once line 96 runs, even when a later step raises.
     */
    method AnalyzeMovies() returns (res: Result<Analysis, Error>)
      requires WellFormed(frame)
      modifies this
      ensures res == Analyze(old(frame))
      ensures ReachesFlag(old(frame)) && FlagFranchises(old(frame)).Ok? ==> frame == FlagFranchises(old(frame)).value
      ensures !(ReachesFlag(old(frame)) && FlagFranchises(old(frame)).Ok?) ==> frame == old(frame)
      ensures WellFormed(frame)
    {
      var df := frame;
      var ranked := RankAll(df, Queries);
      if ranked.Err? {
        return Err(ranked.error);
      }
      var bruce := BruceWillisMovies(df);
      if bruce.Err? {
        return Err(bruce.error);
      }
      var uma := UmaThurmanMovies(df);
      if uma.Err? {
        return Err(uma.error);
      }
      var flagged := FlagFranchises(df);
      if flagged.Err? {
        return Err(flagged.error);
      }
      frame := flagged.value;
      AggregationsDefined(df);
      var franchises := FranchiseTable(frame);
      if franchises.Err? {
        return Err(franchises.error);
      }
      var directors := DirectorTable(frame);
      if directors.Err? {
        return Err(directors.error);
      }
      res := Ok(Analysis(ranked.value, bruce.value, uma.value, franchises.value, directors.value));
    }
  }
}
