/**
 * The last steps of `process_data` (src/process_data.py, lines 97-151): the credits
 * columns, the projection onto the target column list, the zero fill of the amounts
 * and the two derived metrics `roi` and `profit`.
 */
module Finishing {
  import opened Values
  import opened Frames
  import opened Credits
  import opened Layout

  // ---------------------------------------------------------------------------
  // One row

  /** The row with the four credits columns set from its `credits` cell (lines 120-125). */
  function WithCredits(r: Row): Row
  {
    var x := Get(r, "credits");
    r["director" := Director(x)]["cast" := Cast(x)]["cast_size" := SizeOf(x, "cast")]["crew_size" := SizeOf(x, "crew")]
  }

  /** The row after the credits step, which only runs when there is a `credits` column. */
  function CreditStep(r: Row, credits: bool): (full: Row)
    ensures full.Keys == r.Keys + (if credits then Elements(CreditColumns) else {})
  {
    CreditColumnsElements();
    if credits then WithCredits(r) else r
  }

  /** `fillna(0)` on one cell. */
  function Filled(v: Value): Value
  {
    if v == Missing then Num(0.0) else v
  }

  /** The number in a filled amount cell. */
  function Amount(v: Value): real
  {
    if v.Num? then v.n else 0.0
  }

  /**
   * `calculate_roi`: revenue over budget when the budget is positive, else 0. The
   * result is the factor that turns the budget into the revenue.
   */
  function CalculateRoi(budget: real, revenue: real): (roi: real)
    ensures budget > 0.0 ==> roi * budget == revenue
    ensures budget <= 0.0 ==> roi == 0.0
  {
    if budget > 0.0 then revenue / budget else 0.0
  }

  function RoiCell(r: Row): Value
  {
    Num(CalculateRoi(Amount(Get(r, "budget_musd")), Amount(Get(r, "revenue_musd"))))
  }

  function ProfitCell(r: Row): Value
  {
    Num(Amount(Get(r, "revenue_musd")) - Amount(Get(r, "budget_musd")))
  }

  /** One row after lines 105-151, given whether there are credits and the columns kept. */
  function FinishRow(r: Row, credits: bool, keep: set<string>): (out: Row)
    ensures out.Keys == (CreditStep(r, credits).Keys * keep) + {"budget_musd", "revenue_musd", "roi", "profit"}
  {
    WithMetrics(FillAmounts(Restrict(CreditStep(r, credits), keep)))
  }

  /** Lines 137-138: `fillna(0)` on both amount columns. */
  function FillAmounts(sel: Row): (filled: Row)
    ensures filled.Keys == sel.Keys + {"budget_musd", "revenue_musd"}
  {
    sel["budget_musd" := Filled(Get(sel, "budget_musd"))]["revenue_musd" := Filled(Get(sel, "revenue_musd"))]
  }

  /** Lines 141-151: `roi`, then `profit`. */
  function WithMetrics(filled: Row): (out: Row)
    ensures out.Keys == filled.Keys + {"roi", "profit"}
  {
    var withRoi := filled["roi" := RoiCell(filled)];
    withRoi["profit" := ProfitCell(withRoi)]
  }

  // ---------------------------------------------------------------------------
  // The table

  /** None of the credits helpers raises. */
  predicate CreditsOk(f: Frame)
  {
    "credits" in f.columns ==> forall i :: 0 <= i < |f.rows| ==> CreditsDefined(Get(f.rows[i], "credits"))
  }

  /** A cell the amount columns can hold before the fill: a number or missing. */
  predicate IsAmount(v: Value)
  {
    v.Num? || v.Missing?
  }

  /** Both amount columns exist and hold numbers or missing values. */
  predicate AmountsReady(f: Frame)
  {
    && "budget_musd" in f.columns && "revenue_musd" in f.columns
    && forall i :: 0 <= i < |f.rows| ==> IsAmount(Get(f.rows[i], "budget_musd")) && IsAmount(Get(f.rows[i], "revenue_musd"))
  }

  lemma FinishRowKeys(r: Row, target: seq<string>, cols: seq<string>)
    requires Admissible(target) && r.Keys == Elements(cols) && "budget_musd" in cols && "revenue_musd" in cols
    ensures FinishRow(r, "credits" in cols, Elements(FinalColumns(target, cols))).Keys == Elements(FinalColumns(target, cols) + Metrics)
  {
    KeptFacts(target, cols);
  }

  /** Every row finished, in order. */
  function FinishedRows(rows: seq<Row>, credits: bool, keep: set<string>): (r: seq<Row>)
    ensures |r| == |rows| && forall i :: 0 <= i < |rows| ==> r[i] == FinishRow(rows[i], credits, keep)
  {
    seq(|rows|, i requires 0 <= i < |rows| => FinishRow(rows[i], credits, keep))
  }

  /** Lines 97-151: an error when a credits helper raises, else the finished table. */
  function Finish(s: Frame): (res: Result<Frame, Error>)
    requires WellFormed(s) && AmountsReady(s)
    ensures res.Err? <==> !CreditsOk(s)
    ensures res.Err? ==> res.error == MalformedCredits
    ensures res.Ok? ==> && WellFormed(res.value)
                        && res.value.columns == OutputColumns(s.columns)
                        && |res.value.rows| == |s.rows|
                        && forall i :: 0 <= i < |s.rows| ==>
                             res.value.rows[i] == FinishRow(s.rows[i], "credits" in s.columns, Elements(KeptColumns(s.columns)))
  {
    if !CreditsOk(s) then Err(MalformedCredits)
    else
      var credits := "credits" in s.columns;
      var keep := Elements(KeptColumns(s.columns));
      var rows := FinishedRows(s.rows, credits, keep);
      var target := Target(credits);
      TargetFacts(credits);
      KeptFacts(target, s.columns);
      assert forall i :: 0 <= i < |rows| ==> rows[i].Keys == Elements(OutputColumns(s.columns)) by {
        forall i | 0 <= i < |rows| ensures rows[i].Keys == Elements(OutputColumns(s.columns)) {
          FinishRowKeys(s.rows[i], target, s.columns);
        }
      }
      Ok(Frame(OutputColumns(s.columns), rows))
  }

  /** Every row of the finished table is a row of the input, finished. */
  lemma FinishedFrom(s: Frame, x: Row)
    requires WellFormed(s) && AmountsReady(s) && Finish(s).Ok? && x in Finish(s).value.rows
    ensures exists i :: 0 <= i < |s.rows| && x == FinishRow(s.rows[i], "credits" in s.columns, Elements(KeptColumns(s.columns)))
  {
    var i :| 0 <= i < |Finish(s).value.rows| && Finish(s).value.rows[i] == x;
  }

  // ---------------------------------------------------------------------------
  // What a finished row holds

  /**
   * In a finished row both amounts are numbers (missing became 0), `roi` times a
   * positive budget is the revenue, `roi` is 0 otherwise, and `profit` is revenue
   * minus budget.
   */
  lemma FinishedMetrics(r: Row, credits: bool, keep: set<string>)
    requires IsAmount(Get(r, "budget_musd")) && IsAmount(Get(r, "revenue_musd"))
    requires "budget_musd" in keep && "revenue_musd" in keep
    ensures var out := FinishRow(r, credits, keep);
      && MetricsOk(out)
      && out["budget_musd"] == Filled(Get(r, "budget_musd"))
      && out["revenue_musd"] == Filled(Get(r, "revenue_musd"))
  {
    var sel := Restrict(CreditStep(r, credits), keep);
    assert Get(sel, "budget_musd") == Get(r, "budget_musd");
    assert Get(sel, "revenue_musd") == Get(r, "revenue_musd");
    FilledAmounts(sel);
    MetricsHold(FillAmounts(sel));
  }

  /** After the fill both amounts are numbers; a missing amount became 0, any other is kept. */
  lemma FilledAmounts(sel: Row)
    requires IsAmount(Get(sel, "budget_musd")) && IsAmount(Get(sel, "revenue_musd"))
    ensures var f := FillAmounts(sel);
      && f["budget_musd"].Num? && f["revenue_musd"].Num?
      && f["budget_musd"] == Filled(Get(sel, "budget_musd"))
      && f["revenue_musd"] == Filled(Get(sel, "revenue_musd"))
  {
  }

  /** `roi` times a positive budget is the revenue, `roi` is 0 otherwise; `profit` is revenue minus budget. */
  lemma MetricsHold(filled: Row)
    requires "budget_musd" in filled && "revenue_musd" in filled
    requires filled["budget_musd"].Num? && filled["revenue_musd"].Num?
    ensures var out := WithMetrics(filled);
      && MetricsOk(out)
      && out["budget_musd"] == filled["budget_musd"] && out["revenue_musd"] == filled["revenue_musd"]
  {
  }

  /** The last two stages leave every column other than the amounts and metrics alone. */
  lemma StagesKeep(sel: Row, c: string)
    requires c != "budget_musd" && c != "revenue_musd" && c != "roi" && c != "profit"
    ensures Get(WithMetrics(FillAmounts(sel)), c) == Get(sel, c)
  {
  }

  /** Column `c` is neither set by the credits step nor by the last two stages. */
  predicate Copied(c: string, credits: bool)
  {
    && (credits ==> c != "director" && c != "cast" && c != "cast_size" && c != "crew_size")
    && c != "budget_musd" && c != "revenue_musd" && c != "roi" && c != "profit"
  }

  lemma DescribedCopied(credits: bool)
    ensures Copied("id", credits) && Copied("title", credits) && Copied("vote_count", credits)
    ensures Copied("vote_average", credits) && Copied("overview", credits) && Copied("tagline", credits)
  {
  }

  /**
   * Every other column is copied from the row when it is kept and absent otherwise;
   * without a `credits` column this includes the credits names.
   */
  lemma FinishedCopies(r: Row, credits: bool, keep: set<string>, c: string)
    requires Copied(c, credits)
    ensures Get(FinishRow(r, credits, keep), c) == if c in keep then Get(r, c) else Missing
  {
    assert Get(CreditStep(r, credits), c) == Get(r, c);
    StagesKeep(Restrict(CreditStep(r, credits), keep), c);
  }

  /** With a `credits` column, the four credits columns come from the row's `credits` cell. */
  lemma FinishedCredits(r: Row, keep: set<string>)
    requires "director" in keep && "cast" in keep && "cast_size" in keep && "crew_size" in keep
    ensures var out := FinishRow(r, true, keep);
      && out["director"] == Director(Get(r, "credits"))
      && out["cast"] == Cast(Get(r, "credits"))
      && out["cast_size"] == SizeOf(Get(r, "credits"), "cast")
      && out["crew_size"] == SizeOf(Get(r, "credits"), "crew")
  {
    CreditsCells(r);
    FinishedCell(r, true, keep, "director");
    FinishedCell(r, true, keep, "cast");
    FinishedCell(r, true, keep, "cast_size");
    FinishedCell(r, true, keep, "crew_size");
  }

  lemma CreditsCells(r: Row)
    ensures var full := CreditStep(r, true); var x := Get(r, "credits");
      && "director" in full && "cast" in full && "cast_size" in full && "crew_size" in full
      && full["director"] == Director(x) && full["cast"] == Cast(x)
      && full["cast_size"] == SizeOf(x, "cast") && full["crew_size"] == SizeOf(x, "crew")
  {
  }

  /** A kept column other than the amounts and metrics finishes with its value after the credits step. */
  lemma FinishedCell(r: Row, credits: bool, keep: set<string>, c: string)
    requires c in keep && c in CreditStep(r, credits)
    requires c != "budget_musd" && c != "revenue_musd" && c != "roi" && c != "profit"
    ensures c in FinishRow(r, credits, keep) && FinishRow(r, credits, keep)[c] == CreditStep(r, credits)[c]
  {
    StagesKeep(Restrict(CreditStep(r, credits), keep), c);
  }

  predicate NotPlaceholder(v: Value)
  {
    v != Str("No Data") && v != Str("")
  }

  /** Both amounts and both metrics are numbers and the metrics follow from the amounts. */
  predicate MetricsOk(x: Row)
  {
    && "budget_musd" in x && "revenue_musd" in x && "roi" in x && "profit" in x
    && x["budget_musd"].Num? && x["revenue_musd"].Num? && x["roi"].Num? && x["profit"].Num?
    && (x["budget_musd"].n > 0.0 ==> x["roi"].n * x["budget_musd"].n == x["revenue_musd"].n)
    && (x["budget_musd"].n <= 0.0 ==> x["roi"].n == 0.0)
    && x["profit"].n == x["revenue_musd"].n - x["budget_musd"].n
  }

  /** An id and a title, no `status`, no placeholder text, and no average without votes. */
  predicate DescribedOk(x: Row)
  {
    && Get(x, "id") != Missing && Get(x, "title") != Missing
    && "status" !in x
    && (Get(x, "vote_count") == Num(0.0) ==> Get(x, "vote_average") == Num(0.0))
    && NotPlaceholder(Get(x, "overview")) && NotPlaceholder(Get(x, "tagline"))
  }

  /** The per-row guarantees of the cleaned table. */
  predicate CleanRow(x: Row)
  {
    MetricsOk(x) && DescribedOk(x)
  }

  /** The target columns the guarantees speak of are kept whenever they are present. */
  lemma TargetsKept(cols: seq<string>)
    requires "budget_musd" in cols && "revenue_musd" in cols
    ensures var keep := Elements(KeptColumns(cols));
      && "budget_musd" in keep && "revenue_musd" in keep && "status" !in keep
      && ("id" in cols ==> "id" in keep) && ("title" in cols ==> "title" in keep)
      && ("vote_count" in cols ==> "vote_count" in keep) && ("vote_average" in cols ==> "vote_average" in keep)
  {
    var credits := "credits" in cols;
    TargetFacts(credits);
    TargetHolds(credits);
    KeptFacts(Target(credits), cols);
    assert Elements(cols) <= Elements(CreditStepColumns(cols));
    assert "id" in Elements(Target(credits)) && "title" in Elements(Target(credits));
    assert "vote_count" in Elements(Target(credits)) && "vote_average" in Elements(Target(credits));
  }

  /**
   * A row with an id and a title, amounts that are numbers or missing, no `status`,
   * no placeholder text and a zero average wherever the vote count is zero finishes
   * into a row that meets every guarantee of the cleaned table.
   */
  lemma FinishKeepsClean(r: Row, cols: seq<string>)
    requires "id" in cols && "title" in cols && "vote_count" in cols && "vote_average" in cols
    requires "budget_musd" in cols && "revenue_musd" in cols
    requires "status" !in r && Get(r, "id") != Missing && Get(r, "title") != Missing
    requires IsAmount(Get(r, "budget_musd")) && IsAmount(Get(r, "revenue_musd"))
    requires Get(r, "vote_count") == Num(0.0) ==> Get(r, "vote_average") == Num(0.0)
    requires NotPlaceholder(Get(r, "overview")) && NotPlaceholder(Get(r, "tagline"))
    ensures CleanRow(FinishRow(r, "credits" in cols, Elements(KeptColumns(cols))))
  {
    var credits := "credits" in cols;
    var keep := Elements(KeptColumns(cols));
    TargetsKept(cols);
    FinishedMetrics(r, credits, keep);
    FinishKeepsDescribed(r, credits, keep);
  }

  lemma FinishKeepsDescribed(r: Row, credits: bool, keep: set<string>)
    requires "id" in keep && "title" in keep && "vote_count" in keep && "vote_average" in keep && "status" !in keep
    requires Get(r, "id") != Missing && Get(r, "title") != Missing
    requires Get(r, "vote_count") == Num(0.0) ==> Get(r, "vote_average") == Num(0.0)
    requires NotPlaceholder(Get(r, "overview")) && NotPlaceholder(Get(r, "tagline"))
    ensures DescribedOk(FinishRow(r, credits, keep))
  {
    DescribedCopied(credits);
    FinishedCopies(r, credits, keep, "id");
    FinishedCopies(r, credits, keep, "title");
    FinishedCopies(r, credits, keep, "vote_count");
    FinishedCopies(r, credits, keep, "vote_average");
    FinishedCopies(r, credits, keep, "overview");
    FinishedCopies(r, credits, keep, "tagline");
  }

  /** Finishing copies the ids, so ids that were distinct stay distinct. */
  lemma FinishKeepsDistinct(s: Frame)
    requires WellFormed(s) && AmountsReady(s) && Finish(s).Ok?
    requires "id" in s.columns && DistinctOn(s.rows, "id")
    ensures DistinctOn(Finish(s).value.rows, "id")
  {
    var out := Finish(s).value;
    var credits := "credits" in s.columns;
    var keep := Elements(KeptColumns(s.columns));
    TargetsKept(s.columns);
    forall i | 0 <= i < |out.rows| ensures Get(out.rows[i], "id") == Get(s.rows[i], "id") {
      DescribedCopied(credits);
      FinishedCopies(s.rows[i], credits, keep, "id");
    }
  }

  // ---------------------------------------------------------------------------
  // The same steps as the source performs them

  /** Lines 120-125: the four credits columns, each computed from the `credits` cell. */
  method AddCredits(s: Frame) returns (df: Frame)
    requires WellFormed(s)
    ensures WellFormed(df) && df.columns == CreditedColumns(s.columns) && |df.rows| == |s.rows|
    ensures forall i :: 0 <= i < |s.rows| ==> df.rows[i] == WithCredits(s.rows[i])
  {
    var d1 := SetColumn(s, "director", r => Director(Get(r, "credits")));
    var d2 := SetColumn(d1, "cast", r => Cast(Get(r, "credits")));
    var d3 := SetColumn(d2, "cast_size", r => SizeOf(Get(r, "credits"), "cast"));
    df := SetColumn(d3, "crew_size", r => SizeOf(Get(r, "credits"), "crew"));
    forall i | 0 <= i < |s.rows| ensures df.rows[i] == WithCredits(s.rows[i]) {
      var x := Get(s.rows[i], "credits");
      assert Get(d1.rows[i], "credits") == x;
      assert Get(d2.rows[i], "credits") == x;
      assert Get(d3.rows[i], "credits") == x;
    }
  }

  /** Lines 137-151: fill the amounts, then `roi` and `profit`. */
  method AddMetrics(s: Frame) returns (df: Frame)
    requires WellFormed(s) && "budget_musd" in s.columns && "revenue_musd" in s.columns
    requires "roi" !in s.columns && "profit" !in s.columns
    ensures WellFormed(df) && df.columns == s.columns + ["roi", "profit"] && |df.rows| == |s.rows|
    ensures forall i :: 0 <= i < |s.rows| ==>
      var filled := s.rows[i]["budget_musd" := Filled(Get(s.rows[i], "budget_musd"))]
                              ["revenue_musd" := Filled(Get(s.rows[i], "revenue_musd"))];
      var withRoi := filled["roi" := RoiCell(filled)];
      df.rows[i] == withRoi["profit" := ProfitCell(withRoi)]
  {
    df := SetColumn(s, "budget_musd", r => Filled(Get(r, "budget_musd")));
    df := SetColumn(df, "revenue_musd", r => Filled(Get(r, "revenue_musd")));
    df := SetColumn(df, "roi", RoiCell);
    df := SetColumn(df, "profit", ProfitCell);
  }

  /** `process_data` lines 97-151, step by step. */
  method FinishColumns(s: Frame) returns (res: Result<Frame, Error>)
    requires WellFormed(s) && AmountsReady(s)
    ensures res == Finish(s)
  {
    var df := s;
    var credits := "credits" in df.columns;
    if credits {
      if exists i :: 0 <= i < |df.rows| && !CreditsDefined(Get(df.rows[i], "credits")) {
        return Err(MalformedCredits);
      }
      df := AddCredits(df);
    }
    assert df.columns == CreditStepColumns(s.columns);
    var finalCols := Present(Target(credits), df.columns);
    TargetFacts(credits);
    KeptFacts(Target(credits), s.columns);
    df := Select(df, finalCols);
    assert finalCols == KeptColumns(s.columns);
    df := AddMetrics(df);
    assert df.rows == Finish(s).value.rows;
    return Ok(df);
  }
}
