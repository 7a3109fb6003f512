/**
 * The column lists of the finished table (src/process_data.py, lines 97-131) and
 * the facts about them that the projection relies on.
 */
module Layout {
  import opened Values
  import opened Frames

  /** The first half of `target_cols` (lines 98-103): identity, dates, amounts. */
  const TargetHead: seq<string> := [
    "id", "title", "tagline", "release_date", "genres", "belongs_to_collection",
    "original_language", "budget_musd", "revenue_musd"]

  /** The second half of `target_cols`. */
  const TargetTail: seq<string> := [
    "production_companies", "production_countries", "vote_count", "vote_average",
    "popularity", "runtime", "overview", "spoken_languages", "poster_path"]

  /** The output columns the transform wants, in output order (lines 98-103). */
  const TargetColumns: seq<string> := TargetHead + TargetTail

  /** The credits columns in the order they are added to the target list (line 127). */
  const CreditTargets: seq<string> := ["cast", "cast_size", "director", "crew_size"]

  /** The credits columns in the order they are assigned (lines 120-125). */
  const CreditColumns: seq<string> := ["director", "cast", "cast_size", "crew_size"]

  /** The two metrics appended after the projection (lines 141-151). */
  const Metrics: seq<string> := ["roi", "profit"]

  /** `target_cols`, extended when there is a `credits` column. */
  function Target(credits: bool): seq<string>
  {
    TargetColumns + (if credits then CreditTargets else [])
  }

  /** A target list the projection can use: each name once, both amounts, no metric and no `status`. */
  predicate Admissible(target: seq<string>)
  {
    && Distinct(target)
    && "budget_musd" in target && "revenue_musd" in target
    && "roi" !in target && "profit" !in target && "status" !in target
  }

  lemma TargetHeadFacts()
    ensures Distinct(TargetHead) && "budget_musd" in TargetHead && "revenue_musd" in TargetHead
    ensures "roi" !in TargetHead && "profit" !in TargetHead && "status" !in TargetHead
  {
  }

  lemma TargetTailFacts()
    ensures Distinct(TargetTail)
    ensures "roi" !in TargetTail && "profit" !in TargetTail && "status" !in TargetTail
  {
  }

  lemma TargetHalvesApart()
    ensures Elements(TargetHead) !! Elements(TargetTail)
  {
  }

  lemma CreditTargetsFacts()
    ensures Distinct(CreditTargets) && Elements(TargetColumns) !! Elements(CreditTargets)
    ensures "roi" !in CreditTargets && "profit" !in CreditTargets && "status" !in CreditTargets
  {
  }

  /** The columns whose values the finished table is checked on are all targets. */
  lemma TargetHolds(credits: bool)
    ensures "id" in Target(credits) && "title" in Target(credits)
    ensures "vote_count" in Target(credits) && "vote_average" in Target(credits)
    ensures "overview" in Target(credits) && "tagline" in Target(credits)
  {
    assert "id" in TargetHead && "title" in TargetHead && "tagline" in TargetHead;
    assert "vote_count" in TargetTail && "vote_average" in TargetTail && "overview" in TargetTail;
  }

  /** Both target lists are admissible. */
  lemma TargetFacts(credits: bool)
    ensures Admissible(Target(credits))
  {
    TargetHeadFacts();
    TargetTailFacts();
    TargetHalvesApart();
    DistinctConcat(TargetHead, TargetTail);
    if credits {
      CreditTargetsFacts();
      DistinctConcat(TargetColumns, CreditTargets);
    } else {
      assert Target(credits) == TargetColumns;
    }
  }

  /** The column list after the four credits assignments, in the order of lines 120-125. */
  function CreditedColumns(cols: seq<string>): (r: seq<string>)
    ensures Elements(r) == Elements(cols) + Elements(CreditColumns)
    ensures Distinct(cols) ==> Distinct(r)
  {
    CreditColumnsElements();
    WithColumn(WithColumn(WithColumn(WithColumn(cols, "director"), "cast"), "cast_size"), "crew_size")
  }

  lemma CreditColumnsElements()
    ensures Elements(CreditColumns) == {"director", "cast", "cast_size", "crew_size"}
  {
    assert CreditColumns[0] == "director" && CreditColumns[1] == "cast";
    assert CreditColumns[2] == "cast_size" && CreditColumns[3] == "crew_size";
  }

  /** The columns after the credits step, which only runs when there is a `credits` column. */
  function CreditStepColumns(cols: seq<string>): (r: seq<string>)
    ensures Elements(r) == Elements(cols) + (if "credits" in cols then Elements(CreditColumns) else {})
    ensures Distinct(cols) ==> Distinct(r)
  {
    if "credits" in cols then CreditedColumns(cols) else cols
  }

  /** `final_cols` for a given target list (line 130). */
  function FinalColumns(target: seq<string>, cols: seq<string>): (r: seq<string>)
    ensures Elements(r) == Elements(target) * Elements(CreditStepColumns(cols))
    ensures Distinct(target) ==> Distinct(r)
    ensures IsSubsequence(r, target)
  {
    Present(target, CreditStepColumns(cols))
  }

  /** `final_cols`. */
  function KeptColumns(cols: seq<string>): seq<string>
  {
    FinalColumns(Target("credits" in cols), cols)
  }

  /** The columns of the finished table. */
  function OutputColumns(cols: seq<string>): seq<string>
  {
    KeptColumns(cols) + Metrics
  }

  /**
   * With an admissible target and both amounts among the columns, the kept columns
   * name each column once, keep both amounts, leave out the metrics and `status`,
   * and the metrics extend them to a list that still names each column once.
   */
  lemma KeptFacts(target: seq<string>, cols: seq<string>)
    requires Admissible(target) && "budget_musd" in cols && "revenue_musd" in cols
    ensures var kept := FinalColumns(target, cols);
      && Distinct(kept) && "budget_musd" in kept && "revenue_musd" in kept
      && "roi" !in kept && "profit" !in kept && "status" !in kept
      && Elements(kept) <= Elements(CreditStepColumns(cols))
      && Distinct(kept + Metrics) && Elements(kept + Metrics) == Elements(kept) + {"roi", "profit"}
  {
    var kept := FinalColumns(target, cols);
    assert "budget_musd" in Elements(CreditStepColumns(cols)) && "revenue_musd" in Elements(CreditStepColumns(cols));
    assert "budget_musd" in Elements(kept) && "revenue_musd" in Elements(kept);
    assert "roi" !in Elements(kept) && "profit" !in Elements(kept) && "status" !in Elements(kept);
    MetricsFacts();
    DistinctConcat(kept, Metrics);
  }

  lemma MetricsFacts()
    ensures Distinct(Metrics) && Elements(Metrics) == {"roi", "profit"}
  {
    assert Metrics[0] == "roi" && Metrics[1] == "profit";
  }
}
