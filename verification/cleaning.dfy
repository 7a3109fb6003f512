/**
 * `process_data` (src/process_data.py, lines 19-153) as a whole: the normalisation
 * of lines 23-80, the row filters of lines 82-95 and the finishing steps of lines
 * 97-151, with the guarantees the cleaned table gives its readers.
 */
module Cleaning {
  import opened Values
  import opened Frames
  import opened Normalize
  import opened NormalizeColumns
  import opened Screening
  import opened Layout
  import opened Finishing

  /**
   * The transform runs to line 97: names flatten, the collections hash, and
   * `release_date` and `title` exist.
   */
  predicate Ready(raw: Frame)
  {
    NamesOk(raw) && CollectionsHashable(raw) && "release_date" in raw.columns && "title" in raw.columns
  }

  /** The table entering line 82. */
  function Normal(raw: Frame, p: Parsers): (n: Frame)
    requires WellFormed(raw) && NamesOk(raw) && CollectionsHashable(raw) && "release_date" in raw.columns
    ensures WellFormed(n) && n.columns == NormalizedColumns(raw.columns) && |n.rows| == |raw.rows|
    ensures forall i :: 0 <= i < |raw.rows| ==> n.rows[i] == NormalizeRow(raw.rows[i], p)
  {
    Normalized(raw, p).value
  }

  /** The columns after line 95. */
  function ScreenedColumns(cols: seq<string>): seq<string>
  {
    Without(NormalizedColumns(cols), {"status"})
  }

  /** The columns of the normalised table, as a set. */
  lemma NormalizedElements(cols: seq<string>)
    ensures Elements(NormalizedColumns(cols)) ==
      ((Elements(cols) - Elements(IrrelevantColumns)) + Elements(NumericColumns) + Elements(MoneyColumns)) - {"budget", "revenue"}
  {
  }

  lemma ColumnListMembers()
    ensures "title" !in Elements(IrrelevantColumns) && "title" !in Elements(NumericColumns) && "title" !in Elements(MoneyColumns)
    ensures "id" in Elements(NumericColumns) && "vote_count" in Elements(NumericColumns) && "vote_average" in Elements(NumericColumns)
    ensures "budget_musd" in Elements(MoneyColumns) && "revenue_musd" in Elements(MoneyColumns)
  {
    assert "id" in NumericColumns && "vote_count" in NumericColumns && "vote_average" in NumericColumns;
    assert "budget_musd" in MoneyColumns && "revenue_musd" in MoneyColumns;
  }

  /** `title` survives the normalisation exactly when it was there; the numeric and money columns always exist. */
  lemma NormalizedColumnsHold(cols: seq<string>)
    ensures "title" in NormalizedColumns(cols) <==> "title" in cols
    ensures "id" in NormalizedColumns(cols) && "vote_count" in NormalizedColumns(cols) && "vote_average" in NormalizedColumns(cols)
    ensures "budget_musd" in NormalizedColumns(cols) && "revenue_musd" in NormalizedColumns(cols)
  {
    NormalizedElements(cols);
    ColumnListMembers();
    var e := Elements(NormalizedColumns(cols));
    var a, irr, num, money := Elements(cols), Elements(IrrelevantColumns), Elements(NumericColumns), Elements(MoneyColumns);
    Survives("title", a, irr, num, money);
    Survives("id", a, irr, num, money);
    Survives("vote_count", a, irr, num, money);
    Survives("vote_average", a, irr, num, money);
    Survives("budget_musd", a, irr, num, money);
    Survives("revenue_musd", a, irr, num, money);
  }

  lemma Survives(c: string, a: set<string>, irr: set<string>, num: set<string>, money: set<string>)
    requires c != "budget" && c != "revenue"
    ensures c in ((a - irr) + num + money) - {"budget", "revenue"} <==> (c in a && c !in irr) || c in num || c in money
  {
  }

  /** A normalised row holds a number or a missing value in both amount columns. */
  lemma NormalizedAmounts(r: Row, p: Parsers)
    requires "release_date" in r
    ensures IsAmount(Get(NormalizeRow(r, p), "budget_musd")) && IsAmount(Get(NormalizeRow(r, p), "revenue_musd"))
  {
    NormalizedAmount(r, p, "budget");
    NormalizedAmount(r, p, "revenue");
    assert "budget" + "_musd" == "budget_musd" && "revenue" + "_musd" == "revenue_musd";
  }

  lemma NormalizedAmount(r: Row, p: Parsers, c: string)
    requires "release_date" in r && (c == "budget" || c == "revenue")
    ensures IsAmount(Get(NormalizeRow(r, p), c + "_musd"))
  {
    MoneyInMillions(r, p, c);
    MillionsShape(CoerceCell(r, c, p), NormalizeRow(r, p)[c + "_musd"]);
  }

  /** Zero, missing and the division by a million only ever give a number or a missing value. */
  lemma MillionsShape(v: Value, m: Value)
    requires v.Num? || v.Missing?
    requires v == Num(0.0) || v == Missing ==> m == Missing
    requires forall x :: v == Num(x) && x != 0.0 ==> m == Num(x / 1000000.0)
    ensures IsAmount(m)
  {
    if v.Num? && v.n != 0.0 {
      assert m == Num(v.n / 1000000.0);
    }
  }

  /** The screened table of a normalised one is ready for the finishing steps. */
  lemma ScreenedReady(n: Frame)
    requires WellFormed(n) && "title" in n.columns && "budget_musd" in n.columns && "revenue_musd" in n.columns
    requires forall i :: 0 <= i < |n.rows| ==> IsAmount(Get(n.rows[i], "budget_musd")) && IsAmount(Get(n.rows[i], "revenue_musd"))
    ensures AmountsReady(Screen(n).value)
  {
    var s := Screen(n).value;
    assert Elements(s.columns) == Elements(n.columns) - {"status"};
    assert "budget_musd" in Elements(s.columns) && "revenue_musd" in Elements(s.columns);
    forall i | 0 <= i < |s.rows|
      ensures IsAmount(Get(s.rows[i], "budget_musd")) && IsAmount(Get(s.rows[i], "revenue_musd"))
    {
      ScreenOnlyKept(n, s.rows[i]);
      var j :| 0 <= j < |n.rows| && Kept(n, j) && s.rows[i] == Strip(n.rows[j]);
      assert Get(s.rows[i], "budget_musd") == Get(n.rows[j], "budget_musd");
      assert Get(s.rows[i], "revenue_musd") == Get(n.rows[j], "revenue_musd");
    }
  }

  /** The table entering line 97. */
  function Screened(raw: Frame, p: Parsers): (s: Frame)
    requires WellFormed(raw) && Ready(raw)
    ensures WellFormed(s) && s.columns == ScreenedColumns(raw.columns)
  {
    NormalizedColumnsHold(raw.columns);
    Screen(Normal(raw, p)).value
  }

  /** The table entering line 97 holds numbers or missing values in both amount columns. */
  lemma ScreenedAmounts(raw: Frame, p: Parsers)
    requires WellFormed(raw) && Ready(raw)
    ensures AmountsReady(Screened(raw, p))
  {
    var n := Normal(raw, p);
    NormalizedColumnsHold(raw.columns);
    forall i | 0 <= i < |n.rows|
      ensures IsAmount(Get(n.rows[i], "budget_musd")) && IsAmount(Get(n.rows[i], "revenue_musd"))
    {
      NormalizedAmounts(raw.rows[i], p);
    }
    ScreenedReady(n);
  }

  /**
   * `process_data`: the errors the source raises, in the order it meets them, and
   * otherwise the finished table.
   */
  function Clean(raw: Frame, p: Parsers): (res: Result<Frame, Error>)
    requires WellFormed(raw)
    ensures !NamesOk(raw) ==> res == Err(MalformedNames)
    ensures NamesOk(raw) && !CollectionsHashable(raw) ==> res == Err(Unhashable("belongs_to_collection"))
    ensures NamesOk(raw) && CollectionsHashable(raw) && "release_date" !in raw.columns ==> res == Err(MissingColumn("release_date"))
    ensures NamesOk(raw) && CollectionsHashable(raw) && "release_date" in raw.columns && "title" !in raw.columns
      ==> res == Err(MissingColumn("title"))
    ensures Ready(raw) ==> AmountsReady(Screened(raw, p)) && res == Finish(Screened(raw, p))
  {
    if !NamesOk(raw) || !CollectionsHashable(raw) || "release_date" !in raw.columns then Err(Normalized(raw, p).error)
    else
      NormalizedColumnsHold(raw.columns);
      if "title" !in raw.columns then Err(MissingColumn("title"))
      else
        ScreenedAmounts(raw, p);
        Finish(Screened(raw, p))
  }

  // ---------------------------------------------------------------------------
  // Where each output row comes from

  /** Row `j` of a normalised table after lines 93-151, were it kept. */
  function Completed(n: Frame, j: nat): Row
    requires j < |n.rows|
  {
    var cols := Without(n.columns, {"status"});
    FinishRow(Strip(n.rows[j]), "credits" in cols, Elements(KeptColumns(cols)))
  }

  /** Raw row `j` after every step, were it kept. */
  function Finished(raw: Frame, p: Parsers, j: nat): Row
    requires WellFormed(raw) && Ready(raw) && j < |raw.rows|
  {
    Completed(Normal(raw, p), j)
  }

  /** Lines 84-151 on a normalised table keep exactly the rows that pass the filters: no others. */
  lemma CompletedOnlyKept(n: Frame, x: Row)
    requires WellFormed(n) && "title" in n.columns && AmountsReady(Screen(n).value)
    requires Finish(Screen(n).value).Ok? && x in Finish(Screen(n).value).value.rows
    ensures exists j :: 0 <= j < |n.rows| && Kept(n, j) && x == Completed(n, j)
  {
    var s := Screen(n).value;
    FinishedFrom(s, x);
    var i :| 0 <= i < |s.rows| && x == FinishRow(s.rows[i], "credits" in s.columns, Elements(KeptColumns(s.columns)));
    ScreenOnlyKept(n, s.rows[i]);
    var j :| 0 <= j < |n.rows| && Kept(n, j) && s.rows[i] == Strip(n.rows[j]);
    assert x == Completed(n, j);
  }

  /** ... and every row that passes them. */
  lemma CompletedKeepsKept(n: Frame, j: nat)
    requires WellFormed(n) && "title" in n.columns && AmountsReady(Screen(n).value)
    requires Finish(Screen(n).value).Ok? && j < |n.rows| && Kept(n, j)
    ensures Completed(n, j) in Finish(Screen(n).value).value.rows
  {
    var s := Screen(n).value;
    ScreenKeepsKept(n, j);
    var i :| 0 <= i < |s.rows| && s.rows[i] == Strip(n.rows[j]);
    assert Finish(s).value.rows[i] == Completed(n, j);
  }

  /**
   * Every output row is a raw row that survives the filters, finished: its id is the
   * first occurrence of that id, it has an id and a title, at least ten cells are
   * present at the threshold step, and it is released when there is a status.
   */
  lemma CleanOnlyKept(raw: Frame, p: Parsers, x: Row)
    requires WellFormed(raw) && Clean(raw, p).Ok? && x in Clean(raw, p).value.rows
    ensures Ready(raw)
    ensures exists j :: 0 <= j < |raw.rows| && Kept(Normal(raw, p), j) && x == Finished(raw, p, j)
  {
    assert Ready(raw);
    NormalizedColumnsHold(raw.columns);
    var n := Normal(raw, p);
    assert Screened(raw, p) == Screen(n).value;
    CompletedOnlyKept(n, x);
    var j :| 0 <= j < |n.rows| && Kept(n, j) && x == Completed(n, j);
    assert x == Finished(raw, p, j);
  }

  /** Every raw row that survives the filters appears, finished, in the output. */
  lemma CleanKeepsKept(raw: Frame, p: Parsers, j: nat)
    requires WellFormed(raw) && Clean(raw, p).Ok? && j < |raw.rows|
    requires Ready(raw) && Kept(Normal(raw, p), j)
    ensures Finished(raw, p, j) in Clean(raw, p).value.rows
  {
    NormalizedColumnsHold(raw.columns);
    CompletedKeepsKept(Normal(raw, p), j);
  }

  // ---------------------------------------------------------------------------
  // What a normalised row holds

  /** A normalised row never holds a placeholder text, and a zero vote count comes with a zero average. */
  lemma NormalizedSanitised(r: Row, p: Parsers)
    requires "release_date" in r
    ensures NotPlaceholder(Get(NormalizeRow(r, p), "overview")) && NotPlaceholder(Get(NormalizeRow(r, p), "tagline"))
    ensures Get(NormalizeRow(r, p), "vote_count") == Num(0.0) ==> Get(NormalizeRow(r, p), "vote_average") == Num(0.0)
  {
    RatingSanitised(r, p);
    if "overview" in r {
      PlaceholdersMissing(r, p, "overview");
    } else {
      TextAbsent(r, p, "overview");
    }
    if "tagline" in r {
      PlaceholdersMissing(r, p, "tagline");
    } else {
      TextAbsent(r, p, "tagline");
    }
  }

  /** An overview or tagline the record lacks stays absent. */
  lemma TextAbsent(r: Row, p: Parsers, c: string)
    requires "release_date" in r && c !in r && (c == "overview" || c == "tagline")
    ensures c !in NormalizeRow(r, p)
  {
    TextColumnsApart();
    ParsedHasNumeric(r, p);
    ParsedKeys(r, p);
    SanitisedKeys(Parsed(r, p));
    StaysAbsent(c, r.Keys, Elements(IrrelevantColumns), Elements(NumericColumns), Elements(MoneyColumns), NormalizeRow(r, p).Keys);
  }

  lemma TextColumnsApart()
    ensures "overview" !in Elements(NumericColumns) && "overview" !in Elements(MoneyColumns)
    ensures "tagline" !in Elements(NumericColumns) && "tagline" !in Elements(MoneyColumns)
  {
  }

  lemma StaysAbsent(c: string, a: set<string>, irr: set<string>, num: set<string>, money: set<string>, k: set<string>)
    requires k == (a - irr) + num + money - {"budget", "revenue"}
    requires c !in a && c !in num && c !in money
    ensures c !in k
  {
  }

  // ---------------------------------------------------------------------------
  // The guarantees of the cleaned table

  /** The columns the guarantees speak of survive to line 97. */
  lemma ScreenedColumnsHold(cols: seq<string>)
    requires "title" in cols
    ensures var s := ScreenedColumns(cols);
      && "id" in s && "title" in s && "vote_count" in s && "vote_average" in s
      && "budget_musd" in s && "revenue_musd" in s
  {
    NormalizedColumnsHold(cols);
    var n := NormalizedColumns(cols);
    StatusDropKeeps(n, "id");
    StatusDropKeeps(n, "title");
    StatusDropKeeps(n, "vote_count");
    StatusDropKeeps(n, "vote_average");
    StatusDropKeeps(n, "budget_musd");
    StatusDropKeeps(n, "revenue_musd");
  }

  lemma StatusDropKeeps(cs: seq<string>, c: string)
    requires c in cs && c != "status"
    ensures c in Without(cs, {"status"})
  {
    assert c in Elements(cs) - {"status"};
  }

  /** Removing `status` leaves every other cell alone. */
  lemma StripKeeps(x: Row, c: string)
    requires c != "status"
    ensures Get(Strip(x), c) == Get(x, c)
  {
  }

  /** A raw row that survives the filters finishes into a row that meets every guarantee. */
  lemma FinishedClean(raw: Frame, p: Parsers, j: nat)
    requires WellFormed(raw) && Ready(raw) && j < |raw.rows| && Kept(Normal(raw, p), j)
    ensures CleanRow(Finished(raw, p, j))
  {
    var n := Normal(raw, p);
    var x := raw.rows[j];
    assert "release_date" in x by { assert "release_date" in Elements(raw.columns); }
    ScreenedColumnsHold(raw.columns);
    NormalizedAmounts(x, p);
    NormalizedSanitised(x, p);
    var r := Strip(n.rows[j]);
    StripKeeps(n.rows[j], "id");
    StripKeeps(n.rows[j], "title");
    StripKeeps(n.rows[j], "budget_musd");
    StripKeeps(n.rows[j], "revenue_musd");
    StripKeeps(n.rows[j], "vote_count");
    StripKeeps(n.rows[j], "vote_average");
    StripKeeps(n.rows[j], "overview");
    StripKeeps(n.rows[j], "tagline");
    FinishKeepsClean(r, ScreenedColumns(raw.columns));
  }

  /**
   * Every row of the cleaned table has an id and a title, no `status`, numeric
   * amounts and metrics that follow from them, no placeholder text and no rating
   * without votes.
   */
  lemma CleanRows(raw: Frame, p: Parsers)
    requires WellFormed(raw) && Clean(raw, p).Ok?
    ensures forall x :: x in Clean(raw, p).value.rows ==> CleanRow(x)
  {
    forall x | x in Clean(raw, p).value.rows ensures CleanRow(x) {
      CleanOnlyKept(raw, p, x);
      var j :| 0 <= j < |raw.rows| && Kept(Normal(raw, p), j) && x == Finished(raw, p, j);
      FinishedClean(raw, p, j);
    }
  }

  /** No two rows of the cleaned table share an id. */
  lemma CleanDistinctIds(raw: Frame, p: Parsers)
    requires WellFormed(raw) && Clean(raw, p).Ok?
    ensures DistinctOn(Clean(raw, p).value.rows, "id")
  {
    NormalizedColumnsHold(raw.columns);
    ScreenedColumnsHold(raw.columns);
    ScreenDistinctIds(Normal(raw, p));
    ScreenedAmounts(raw, p);
    FinishKeepsDistinct(Screened(raw, p));
  }

  // ---------------------------------------------------------------------------
  // The same steps as the source performs them

  /** `process_data`, one reassignment of the table after another. */
  method ProcessData(raw: Frame, p: Parsers) returns (res: Result<Frame, Error>)
    requires WellFormed(raw)
    ensures res == Clean(raw, p)
  {
    var normalized := NormalizeColumns.NormalizeColumns(raw, p);
    if normalized.Err? {
      return Err(normalized.error);
    }
    var df := normalized.value;
    NormalizedColumnsHold(raw.columns);
    if "title" !in df.columns {
      return Err(MissingColumn("title"));
    }
    df := Deduplicated(df);
    df := Identified(df);
    df := Thresholded(df);
    if "status" in df.columns {
      df := FilterRows(df, IsReleased);
      df := DropColumns(df, {"status"});
    }
    assert df == Screened(raw, p);
    ScreenedAmounts(raw, p);
    res := FinishColumns(df);
  }
}
