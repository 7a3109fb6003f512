/**
 * Lines 23-80 of `process_data` as the source performs them: the table is rebound
 * and its columns reassigned one loop at a time. `NormalizeColumns` is proved to
 * produce exactly `Normalized`, the table whose every row is `NormalizeRow` of the
 * raw row.
 */
module NormalizeColumns {
  import opened Values
  import opened Frames
  import opened Normalize

  /**
   * `extract_names` returns on every cell of the list-valued JSON columns
   * (`belongs_to_collection` never raises).
   */
  predicate NamesOk(f: Frame)
  {
    forall i, c :: 0 <= i < |f.rows| && c in JsonColumns && c != "belongs_to_collection" && c in f.rows[i] ==>
      NamesDefined(f.rows[i][c])
  }

  /**
   * The `value_counts` of lines 47-50 can hash every flattened JSON cell. The
   * list-valued columns then hold text, so only a collection whose `name` is a list
   * or an object makes it raise.
   */
  predicate CollectionsHashable(f: Frame)
  {
    forall i :: 0 <= i < |f.rows| && "belongs_to_collection" in f.rows[i] ==>
      Hashable(CollectionName(f.rows[i]["belongs_to_collection"]))
  }

  /** Every raw row normalised, in order. */
  function NormalizedRows(rows: seq<Row>, p: Parsers): (r: seq<Row>)
    ensures |r| == |rows| && forall i :: 0 <= i < |rows| ==> r[i] == NormalizeRow(rows[i], p)
  {
    seq(|rows|, i requires 0 <= i < |rows| => NormalizeRow(rows[i], p))
  }

  lemma NormalizedWellFormed(raw: Frame, p: Parsers)
    requires WellFormed(raw) && "release_date" in raw.columns
    ensures WellFormed(Frame(NormalizedColumns(raw.columns), NormalizedRows(raw.rows, p)))
  {
    var rows := NormalizedRows(raw.rows, p);
    forall i | 0 <= i < |rows| ensures rows[i].Keys == Elements(NormalizedColumns(raw.columns)) {
      NormalizedKeys(raw.rows[i], raw.columns, p);
    }
  }

  /**
   * The table after lines 23-80: an error when `extract_names` raises, when
   * `value_counts` cannot hash a flattened collection, or when there is no
   * `release_date` column, in that order; else every row normalised and the columns
   * laid out as the source leaves them.
   */
  function Normalized(raw: Frame, p: Parsers): (res: Result<Frame, Error>)
    requires WellFormed(raw)
    ensures res.Err? <==> !NamesOk(raw) || !CollectionsHashable(raw) || "release_date" !in raw.columns
    ensures res.Err? && !NamesOk(raw) ==> res.error == MalformedNames
    ensures res.Err? && NamesOk(raw) && !CollectionsHashable(raw) ==> res.error == Unhashable("belongs_to_collection")
    ensures res.Err? && NamesOk(raw) && CollectionsHashable(raw) ==> res.error == MissingColumn("release_date")
    ensures res.Ok? ==> && WellFormed(res.value)
                        && res.value.columns == NormalizedColumns(raw.columns)
                        && |res.value.rows| == |raw.rows|
                        && (forall i :: 0 <= i < |raw.rows| ==> res.value.rows[i] == NormalizeRow(raw.rows[i], p))
  {
    if !NamesOk(raw) then Err(MalformedNames)
    else if !CollectionsHashable(raw) then Err(Unhashable("belongs_to_collection"))
    else if "release_date" !in raw.columns then Err(MissingColumn("release_date"))
    else
      NormalizedWellFormed(raw, p);
      Ok(Frame(NormalizedColumns(raw.columns), NormalizedRows(raw.rows, p)))
  }

  /** Dropping the irrelevant columns does not touch a JSON column. */
  lemma NamesOkAfterDrop(raw: Frame)
    requires WellFormed(raw)
    ensures NamesOk(DropColumns(raw, Elements(IrrelevantColumns))) <==> NamesOk(raw)
    ensures CollectionsHashable(DropColumns(raw, Elements(IrrelevantColumns))) <==> CollectionsHashable(raw)
  {
    var df := DropColumns(raw, Elements(IrrelevantColumns));
    assert forall c :: c in JsonColumns ==> c !in IrrelevantColumns;
    if !NamesOk(raw) {
      var i, c :| 0 <= i < |raw.rows| && c in JsonColumns && c != "belongs_to_collection" && c in raw.rows[i]
                  && !NamesDefined(raw.rows[i][c]);
      assert df.rows[i][c] == raw.rows[i][c];
    }
    assert "belongs_to_collection" !in IrrelevantColumns;
    if !CollectionsHashable(raw) {
      var i :| 0 <= i < |raw.rows| && "belongs_to_collection" in raw.rows[i]
               && !Hashable(CollectionName(raw.rows[i]["belongs_to_collection"]));
      assert df.rows[i]["belongs_to_collection"] == raw.rows[i]["belongs_to_collection"];
    }
  }

  /** The cell of JSON column `c` in row `r` after lines 37-43 (rows without the column are left alone). */
  function FlattenCell(r: Row, c: string): Row
  {
    if c in r then r[c := Flatten(c, r[c])] else r
  }

  /** One pass of the loop of lines 37-43: column `c`, if present, is flattened; `extract_names` may raise. */
  method FlattenColumn(df: Frame, c: string) returns (res: Result<Frame, Error>)
    requires WellFormed(df)
    ensures res.Err? <==> c != "belongs_to_collection" && c in df.columns
                          && exists i :: 0 <= i < |df.rows| && !NamesDefined(df.rows[i][c])
    ensures res.Err? ==> res.error == MalformedNames
    ensures res.Ok? ==> && WellFormed(res.value) && res.value.columns == df.columns
                        && |res.value.rows| == |df.rows|
                        && forall i :: 0 <= i < |df.rows| ==> res.value.rows[i] == FlattenCell(df.rows[i], c)
  {
    if c !in df.columns {
      return Ok(df);
    }
    if c == "belongs_to_collection" {
      return Ok(SetColumn(df, c, r => CollectionName(Get(r, c))));
    }
    if exists i :: 0 <= i < |df.rows| && !NamesDefined(df.rows[i][c]) {
      return Err(MalformedNames);
    }
    return Ok(SetColumn(df, c, r => Str(ExtractNames(Get(r, c)))));
  }

  /** `extract_names` returns on the list-valued JSON columns among the first `k`. */
  predicate NamesOkUpTo(f: Frame, k: nat)
    requires k <= |JsonColumns|
  {
    forall i, j :: (0 <= i < |f.rows| && 0 <= j < k && JsonColumns[j] != "belongs_to_collection"
                    && JsonColumns[j] in f.rows[i]) ==> NamesDefined(f.rows[i][JsonColumns[j]])
  }

  lemma NamesOkExtend(f: Frame, k: nat)
    requires k < |JsonColumns| && NamesOkUpTo(f, k)
    requires JsonColumns[k] != "belongs_to_collection" ==>
      forall i :: 0 <= i < |f.rows| && JsonColumns[k] in f.rows[i] ==> NamesDefined(f.rows[i][JsonColumns[k]])
    ensures NamesOkUpTo(f, k + 1)
  {
  }

  lemma NamesOkAll(f: Frame)
    requires NamesOkUpTo(f, |JsonColumns|)
    ensures NamesOk(f)
  {
    forall i, c | 0 <= i < |f.rows| && c in JsonColumns && c != "belongs_to_collection" && c in f.rows[i]
      ensures NamesDefined(f.rows[i][c])
    {
      var j :| 0 <= j < |JsonColumns| && JsonColumns[j] == c;
    }
  }

  lemma FlattenStep(r: Row, k: nat)
    requires k < |JsonColumns|
    ensures FlattenedRow(r, JsonColumns[..k + 1]) == FlattenCell(FlattenedRow(r, JsonColumns[..k]), JsonColumns[k])
  {
    assert JsonColumns[..k + 1][..k] == JsonColumns[..k];
  }

  lemma NamesBroken(f: Frame, i: nat, c: string)
    requires i < |f.rows| && c in JsonColumns && c != "belongs_to_collection"
    requires c in f.rows[i] && !NamesDefined(f.rows[i][c])
    ensures !NamesOk(f)
  {
  }

  /** Lines 37-43: each JSON column that is present is flattened; `extract_names` may raise. */
  method FlattenJson(df0: Frame) returns (res: Result<Frame, Error>)
    requires WellFormed(df0)
    ensures res.Err? <==> !NamesOk(df0)
    ensures res.Err? ==> res.error == MalformedNames
    ensures res.Ok? ==> && WellFormed(res.value) && res.value.columns == df0.columns
                        && |res.value.rows| == |df0.rows|
                        && forall i :: 0 <= i < |df0.rows| ==> res.value.rows[i] == FlattenedRow(df0.rows[i], JsonColumns)
  {
    ColumnListsDistinct();
    var df := df0;
    for k := 0 to |JsonColumns|
      invariant WellFormed(df) && df.columns == df0.columns && |df.rows| == |df0.rows|
      invariant forall i :: 0 <= i < |df.rows| ==> df.rows[i] == FlattenedRow(df0.rows[i], JsonColumns[..k])
      invariant NamesOkUpTo(df0, k)
    {
      var c := JsonColumns[k];
      forall i | 0 <= i < |df0.rows|
        ensures c in df0.rows[i] ==> c in df.rows[i] && df.rows[i][c] == df0.rows[i][c]
        ensures FlattenedRow(df0.rows[i], JsonColumns[..k + 1]) == FlattenCell(df.rows[i], c)
      {
        FlattenedCell(df0.rows[i], JsonColumns[..k], c);
        FlattenStep(df0.rows[i], k);
      }
      var step := FlattenColumn(df, c);
      if step.Err? {
        var i :| 0 <= i < |df.rows| && !NamesDefined(df.rows[i][c]);
        NamesBroken(df0, i, c);
        return step;
      }
      NamesOkExtend(df0, k);
      df := step.value;
    }
    assert JsonColumns[..|JsonColumns|] == JsonColumns;
    NamesOkAll(df0);
    return Ok(df);
  }

  /** Every cell of column `c` can be hashed. */
  predicate ColumnHashable(f: Frame, c: string)
  {
    forall i :: 0 <= i < |f.rows| ==> Hashable(Get(f.rows[i], c))
  }

  /**
   * Lines 47-50: `value_counts` of each present JSON column in turn, which raises on
   * the first column holding a list or an object.
   */
  method InspectColumns(df: Frame) returns (failure: Option<Error>)
    ensures failure.None? <==> forall c :: c in JsonColumns && c in df.columns ==> ColumnHashable(df, c)
    ensures failure.Some? ==>
      exists k :: (0 <= k < |JsonColumns| && failure.value == Unhashable(JsonColumns[k])
                   && JsonColumns[k] in df.columns && !ColumnHashable(df, JsonColumns[k])
                   && forall j :: 0 <= j < k && JsonColumns[j] in df.columns ==> ColumnHashable(df, JsonColumns[j]))
  {
    for k := 0 to |JsonColumns|
      invariant forall j :: 0 <= j < k && JsonColumns[j] in df.columns ==> ColumnHashable(df, JsonColumns[j])
    {
      var c := JsonColumns[k];
      if c in df.columns && exists i :: 0 <= i < |df.rows| && !Hashable(Get(df.rows[i], c)) {
        return Some(Unhashable(c));
      }
    }
    return None;
  }

  /**
   * After lines 37-43 every list-valued JSON column holds text, which hashes; the
   * collection column hashes exactly when every raw collection's name does.
   */
  lemma FlattenedHashable(df: Frame, flat: Frame)
    requires |flat.rows| == |df.rows|
    requires forall i :: 0 <= i < |df.rows| ==> flat.rows[i] == FlattenedRow(df.rows[i], JsonColumns)
    ensures forall c :: c in JsonColumns && c != "belongs_to_collection" ==> ColumnHashable(flat, c)
    ensures ColumnHashable(flat, "belongs_to_collection") <==> CollectionsHashable(df)
  {
    ColumnListsDistinct();
    forall i, c | 0 <= i < |df.rows| && c in JsonColumns
      ensures c in df.rows[i] ==> Get(flat.rows[i], c) == Flatten(c, df.rows[i][c])
      ensures c !in df.rows[i] ==> Get(flat.rows[i], c) == Missing
    {
      FlattenedCell(df.rows[i], JsonColumns, c);
    }
    var c := "belongs_to_collection";
    assert c in JsonColumns;
    if !ColumnHashable(flat, c) {
      var i :| 0 <= i < |flat.rows| && !Hashable(Get(flat.rows[i], c));
      assert c in df.rows[i] && !Hashable(CollectionName(df.rows[i][c]));
    }
    if !CollectionsHashable(df) {
      var i :| 0 <= i < |df.rows| && c in df.rows[i] && !Hashable(CollectionName(df.rows[i][c]));
      assert !Hashable(Get(flat.rows[i], c));
    }
  }

  /** Lines 55-56: every numeric column is coerced, and created (as 0) when absent. */
  method CoerceNumeric(df0: Frame, p: Parsers) returns (df: Frame)
    requires WellFormed(df0)
    ensures WellFormed(df) && df.columns == AppendMissing(df0.columns, NumericColumns) && |df.rows| == |df0.rows|
    ensures forall i :: 0 <= i < |df0.rows| ==> df.rows[i] == CoercedRow(df0.rows[i], NumericColumns, p)
  {
    df := df0;
    for k := 0 to |NumericColumns|
      invariant WellFormed(df) && df.columns == AppendMissing(df0.columns, NumericColumns[..k]) && |df.rows| == |df0.rows|
      invariant forall i :: 0 <= i < |df.rows| ==> df.rows[i] == CoercedRow(df0.rows[i], NumericColumns[..k], p)
    {
      var c := NumericColumns[k];
      ghost var done := NumericColumns[..k + 1];
      assert done[..k] == NumericColumns[..k] && done[k] == c;
      ghost var prev := df;
      df := SetColumn(df, c, r => CoerceCell(r, c, p));
      assert df.columns == AppendMissing(df0.columns, done);
      forall i | 0 <= i < |df.rows| ensures df.rows[i] == CoercedRow(df0.rows[i], done, p) {
        assert df.rows[i] == prev.rows[i][c := CoerceCell(prev.rows[i], c, p)];
      }
    }
    assert NumericColumns[..|NumericColumns|] == NumericColumns;
  }

  /** Lines 62-64: a 0 in `budget`, `revenue` or `runtime` becomes missing. */
  method ZeroAsMissing(df0: Frame) returns (df: Frame)
    requires WellFormed(df0) && Elements(ZeroMeansMissing) <= Elements(df0.columns)
    ensures WellFormed(df) && df.columns == df0.columns && |df.rows| == |df0.rows|
    ensures forall i :: 0 <= i < |df0.rows| ==> df.rows[i] == ZeroedRow(df0.rows[i], ZeroMeansMissing)
  {
    df := df0;
    for k := 0 to |ZeroMeansMissing|
      invariant WellFormed(df) && df.columns == df0.columns && |df.rows| == |df0.rows|
      invariant forall i :: 0 <= i < |df.rows| ==> df.rows[i] == ZeroedRow(df0.rows[i], ZeroMeansMissing[..k])
    {
      var c := ZeroMeansMissing[k];
      assert ZeroMeansMissing[..k + 1][..k] == ZeroMeansMissing[..k];
      assert c in Elements(df0.columns);
      df := SetColumn(df, c, r => NonZero(Get(r, c)));
    }
    assert ZeroMeansMissing[..|ZeroMeansMissing|] == ZeroMeansMissing;
  }

  /** Lines 78-80: "No Data" and "" become missing in the text columns that are present. */
  method ReplacePlaceholders(df0: Frame) returns (df: Frame)
    requires WellFormed(df0)
    ensures WellFormed(df) && df.columns == df0.columns && |df.rows| == |df0.rows|
    ensures forall i :: 0 <= i < |df0.rows| ==> df.rows[i] == TextRow(df0.rows[i], PlaceholderColumns)
  {
    df := df0;
    for k := 0 to |PlaceholderColumns|
      invariant WellFormed(df) && df.columns == df0.columns && |df.rows| == |df0.rows|
      invariant forall i :: 0 <= i < |df.rows| ==> df.rows[i] == TextRow(df0.rows[i], PlaceholderColumns[..k])
    {
      var c := PlaceholderColumns[k];
      assert PlaceholderColumns[..k + 1][..k] == PlaceholderColumns[..k];
      if c in df.columns {
        df := SetColumn(df, c, r => Placeholder(Get(r, c)));
      }
    }
    assert PlaceholderColumns[..|PlaceholderColumns|] == PlaceholderColumns;
  }

  /** Lines 67-71: both amounts in millions, then the raw amounts dropped. */
  method ToMillions(df0: Frame) returns (df: Frame)
    requires WellFormed(df0)
    ensures WellFormed(df) && df.columns == Without(AppendMissing(df0.columns, MoneyColumns), {"budget", "revenue"})
    ensures |df.rows| == |df0.rows| && forall i :: 0 <= i < |df0.rows| ==> df.rows[i] == MillionsRow(df0.rows[i])
  {
    df := SetColumn(df0, "budget_musd", r => Millions(Get(r, "budget")));
    df := SetColumn(df, "revenue_musd", r => Millions(Get(r, "revenue")));
    df := DropColumns(df, {"budget", "revenue"});
    assert MoneyColumns[..1] == ["budget_musd"] && MoneyColumns[..1][..0] == [];
  }

  /** Lines 74-75: where the vote count is 0 the average becomes 0. */
  method ZeroUnvotedRatings(df0: Frame) returns (df: Frame)
    requires WellFormed(df0)
    ensures WellFormed(df) && df.columns == df0.columns
    ensures |df.rows| == |df0.rows| && forall i :: 0 <= i < |df0.rows| ==> df.rows[i] == RatedRow(df0.rows[i])
  {
    df := df0;
    if "vote_count" in df.columns && "vote_average" in df.columns {
      df := SetColumn(df, "vote_average", r => Rating(Get(r, "vote_count"), Get(r, "vote_average")));
    }
  }

  /** Lines 23-59: drop, flatten, coerce, parse the release date. */
  method ParseColumns(raw: Frame, p: Parsers) returns (res: Result<Frame, Error>)
    requires WellFormed(raw)
    ensures res.Err? <==> !NamesOk(raw) || !CollectionsHashable(raw) || "release_date" !in raw.columns
    ensures res.Err? ==> res.error == if !NamesOk(raw) then MalformedNames
                                     else if !CollectionsHashable(raw) then Unhashable("belongs_to_collection")
                                     else MissingColumn("release_date")
    ensures res.Ok? ==> && WellFormed(res.value)
                        && res.value.columns == AppendMissing(Without(raw.columns, Elements(IrrelevantColumns)), NumericColumns)
                        && |res.value.rows| == |raw.rows|
                        && forall i :: 0 <= i < |raw.rows| ==> res.value.rows[i] == Parsed(raw.rows[i], p)
  {
    var irrelevant := Elements(IrrelevantColumns);
    var df := DropColumns(raw, irrelevant);
    NamesOkAfterDrop(raw);
    var flat := FlattenJson(df);
    if flat.Err? {
      return Err(flat.error);
    }
    FlattenedHashable(df, flat.value);
    assert JsonColumns[1] == "belongs_to_collection";
    var inspected := InspectColumns(flat.value);
    if inspected.Some? {
      return Err(inspected.value);
    }
    assert CollectionsHashable(df) by {
      if "belongs_to_collection" !in flat.value.columns {
        assert forall i :: 0 <= i < |df.rows| ==> "belongs_to_collection" !in df.rows[i];
      }
    }
    df := CoerceNumeric(flat.value, p);

    // Line 59: `df['release_date']` raises when the column is absent.
    assert Elements(df.columns) == Elements(raw.columns) - irrelevant + Elements(NumericColumns);
    ReleaseDateApart();
    if "release_date" !in df.columns {
      assert "release_date" !in Elements(df.columns);
      assert "release_date" !in Elements(raw.columns);
      return Err(MissingColumn("release_date"));
    }
    assert "release_date" in raw.columns by {
      assert "release_date" in Elements(df.columns);
    }
    df := SetColumn(df, "release_date", r => ParseDate(Get(r, "release_date"), p));
    return Ok(df);
  }

  /** Lines 62-80: zero-as-missing, millions, ratings, placeholders. */
  method SanitiseColumns(df0: Frame) returns (df: Frame)
    requires WellFormed(df0) && Elements(NumericColumns) <= Elements(df0.columns)
    ensures WellFormed(df) && df.columns == Without(AppendMissing(df0.columns, MoneyColumns), {"budget", "revenue"})
    ensures |df.rows| == |df0.rows| && forall i :: 0 <= i < |df0.rows| ==> df.rows[i] == Sanitised(df0.rows[i])
  {
    df := ZeroAsMissing(df0);
    df := ToMillions(df);
    df := ZeroUnvotedRatings(df);
    df := ReplacePlaceholders(df);
  }

  /** `process_data` lines 23-80, step by step. */
  method NormalizeColumns(raw: Frame, p: Parsers) returns (res: Result<Frame, Error>)
    requires WellFormed(raw)
    ensures res == Normalized(raw, p)
  {
    var parsed := ParseColumns(raw, p);
    if parsed.Err? {
      return Err(parsed.error);
    }
    var df := SanitiseColumns(parsed.value);
    assert df.rows == Normalized(raw, p).value.rows;
    return Ok(df);
  }
}
