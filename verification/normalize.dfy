/**
 * The per-record half of the cleaning transform `process_data`
 * (src/process_data.py, lines 23-80): flattening the nested JSON columns, numeric and
 * date coercion, zero-as-missing, the conversion to millions, the rating rule and the
 * placeholder text rule. Here every step is stated one row at a time; the method
 * `NormalizeColumns.NormalizeColumns` performs the same steps column by column, as the source
 * does, and is proved to agree with `NormalizeRow`.
 */
module Normalize {
  import opened Values
  import opened Text
  import opened Frames

  const IrrelevantColumns: seq<string> := ["adult", "imdb_id", "original_title", "video", "homepage"]
  const JsonColumns: seq<string> :=
    ["genres", "belongs_to_collection", "production_countries", "production_companies", "spoken_languages"]
  const NumericColumns: seq<string> :=
    ["budget", "id", "popularity", "revenue", "vote_average", "vote_count", "runtime"]
  const ZeroMeansMissing: seq<string> := ["budget", "revenue", "runtime"]
  const MoneyColumns: seq<string> := ["budget_musd", "revenue_musd"]
  const PlaceholderColumns: seq<string> := ["overview", "tagline"]

  /**
   * The library parsers behind `pd.to_numeric(..., errors='coerce')` and
   * `pd.to_datetime(..., errors='coerce')`, left abstract: `None` is a value they
   * cannot parse. A date is a day number.
   */
  datatype Parsers = Parsers(number: Value -> Option<real>, date: Value -> Option<int>)

  // ---------------------------------------------------------------------------
  // extract_names and the belongs_to_collection lambda

  /** The `name` of one list entry, when the entry is an object whose `name` is text. */
  function NameOf(e: Value): Option<string>
  {
    if e.Dict? && "name" in e.fields && e.fields["name"].Str? then Some(e.fields["name"].s) else None
  }

  /**
   * `'name' in i`, then `i['name']` when that holds, succeed on entry `i`, and the
   * name is text for the join: an object's name must be text; a string entry is
   * skipped unless it contains "name" (then indexing it fails); a list entry is
   * skipped unless it holds the string "name"; numbers, booleans and nulls fail the
   * `in` test.
   */
  predicate EntryDefined(e: Value)
  {
    match e
    case Dict(m) => "name" !in m || m["name"].Str?
    case Str(s) => !Contains(s, "name")
    case List(xs) => Str("name") !in xs
    case _ => false
  }

  /** `extract_names(v)` returns without raising. */
  predicate NamesDefined(v: Value)
  {
    v.List? ==> forall e :: e in v.items ==> EntryDefined(e)
  }

  /** The names of the entries that have one, in list order. */
  function Names(items: seq<Value>): (ns: seq<string>)
    ensures |ns| <= |items|
  {
    if items == [] then []
    else
      (match NameOf(items[0]) case Some(n) => [n] case None => []) + Names(items[1..])
  }

  /** `extract_names`: the names of a list's entries joined by `|`; anything but a list gives "". */
  function ExtractNames(v: Value): string
  {
    if v.List? then Join(Names(v.items)) else ""
  }

  /** The names come out in list order: names of a concatenation are the concatenated names. */
  lemma {:induction false} NamesAppend(a: seq<Value>, b: seq<Value>)
    ensures Names(a + b) == Names(a) + Names(b)
    decreases |a|
  {
    if a == [] {
      assert a + b == b;
    } else {
      assert (a + b)[0] == a[0] && (a + b)[1..] == a[1..] + b;
      NamesAppend(a[1..], b);
    }
  }

  /** A text is among the extracted names exactly when some entry is an object carrying it as `name`. */
  lemma {:induction false} NamesMember(items: seq<Value>, n: string)
    ensures n in Names(items) <==> exists e :: e in items && NameOf(e) == Some(n)
    decreases |items|
  {
    if items != [] {
      NamesMember(items[1..], n);
      assert items == [items[0]] + items[1..];
    }
  }

  /** The joined names split back into the list of names, when no name holds a `|`. */
  lemma ExtractNamesSplits(v: Value)
    requires v.List? && Names(v.items) != [] && PipeFree(Names(v.items))
    ensures Split(ExtractNames(v)) == Names(v.items)
  {
    SplitJoin(Names(v.items));
  }

  /** The `belongs_to_collection` lambda: the object's `name` (of whatever type), else "". */
  function CollectionName(v: Value): Value
  {
    if v.Dict? && "name" in v.fields then v.fields["name"] else Str("")
  }

  /** The new value of JSON column `c` (lines 37-43). */
  function Flatten(c: string, v: Value): Value
  {
    if c == "belongs_to_collection" then CollectionName(v) else Str(ExtractNames(v))
  }

  // ---------------------------------------------------------------------------
  // Coercion and the per-cell rules

  /** `pd.to_numeric(errors='coerce')` on one cell: missing stays missing, numbers stay, the rest is parsed. */
  function Coerce(v: Value, p: Parsers): Value
  {
    match v
    case Missing => Missing
    case Num(x) => Num(x)
    case _ => match p.number(v) case Some(x) => Num(x) case None => Missing
  }

  /** `pd.to_datetime(errors='coerce')` on one cell. */
  function ParseDate(v: Value, p: Parsers): Value
  {
    match v
    case Missing => Missing
    case Date(d) => Date(d)
    case _ => match p.date(v) case Some(d) => Date(d) case None => Missing
  }

  /** `pd.to_numeric(df.get(c, 0), errors='coerce')` for one row: an absent column becomes 0 everywhere. */
  function CoerceCell(r: Row, c: string, p: Parsers): Value
  {
    if c in r then Coerce(r[c], p) else Num(0.0)
  }

  /** `replace(0, pd.NA)`. */
  function NonZero(v: Value): Value
  {
    if v == Num(0.0) then Missing else v
  }

  /** Division by 1 000 000; a missing amount stays missing. */
  function Millions(v: Value): Value
  {
    match v
    case Num(x) => Num(x / 1000000.0)
    case _ => Missing
  }

  /** The average kept for a row, given its vote count (line 75). */
  function Rating(count: Value, average: Value): Value
  {
    if count == Num(0.0) then Num(0.0) else average
  }

  /** `replace(['No Data', ''], pd.NA)`. */
  function Placeholder(v: Value): Value
  {
    if v == Str("No Data") || v == Str("") then Missing else v
  }

  // ---------------------------------------------------------------------------
  // The steps of lines 23-80 on one row

  /** The row after the JSON columns in `done` have been flattened, one column after another (lines 37-43). */
  function FlattenedRow(r: Row, done: seq<string>): Row
    decreases |done|
  {
    if done == [] then r
    else
      var prev := FlattenedRow(r, done[..|done| - 1]);
      var c := done[|done| - 1];
      if c in prev then prev[c := Flatten(c, prev[c])] else prev
  }

  /** The row after the numeric columns in `done` have been coerced (lines 55-56); an absent one appears as 0. */
  function CoercedRow(r: Row, done: seq<string>, p: Parsers): Row
    decreases |done|
  {
    if done == [] then r
    else
      var prev := CoercedRow(r, done[..|done| - 1], p);
      var c := done[|done| - 1];
      prev[c := CoerceCell(prev, c, p)]
  }

  function DatedRow(r: Row, p: Parsers): Row
  {
    r["release_date" := ParseDate(Get(r, "release_date"), p)]
  }

  /** The row after the columns in `done` have had 0 replaced by missing (lines 62-64). */
  function ZeroedRow(r: Row, done: seq<string>): Row
    decreases |done|
  {
    if done == [] then r
    else
      var prev := ZeroedRow(r, done[..|done| - 1]);
      var c := done[|done| - 1];
      prev[c := NonZero(Get(prev, c))]
  }

  function MillionsRow(r: Row): Row
  {
    r["budget_musd" := Millions(Get(r, "budget"))]["revenue_musd" := Millions(Get(r, "revenue"))]
      - {"budget", "revenue"}
  }

  function RatedRow(r: Row): Row
  {
    if "vote_count" in r && "vote_average" in r then r["vote_average" := Rating(r["vote_count"], r["vote_average"])]
    else r
  }

  /** The row after the text columns in `done` have had their placeholders replaced (lines 78-80). */
  function TextRow(r: Row, done: seq<string>): Row
    decreases |done|
  {
    if done == [] then r
    else
      var prev := TextRow(r, done[..|done| - 1]);
      var c := done[|done| - 1];
      if c in prev then prev[c := Placeholder(prev[c])] else prev
  }

  // What each column-by-column pass does to one cell, whatever the column list.

  lemma {:induction false} FlattenedCell(r: Row, done: seq<string>, c: string)
    requires Distinct(done)
    ensures FlattenedRow(r, done).Keys == r.Keys
    ensures c in r ==> FlattenedRow(r, done)[c] == if c in done then Flatten(c, r[c]) else r[c]
    decreases |done|
  {
    if done != [] {
      var init := done[..|done| - 1];
      DistinctInit(done);
      FlattenedCell(r, init, c);
      assert c in done <==> c in init || c == done[|done| - 1];
    }
  }

  lemma {:induction false} CoercedCell(r: Row, done: seq<string>, p: Parsers, c: string)
    requires Distinct(done)
    ensures CoercedRow(r, done, p).Keys == r.Keys + Elements(done)
    ensures c in r || c in done ==> CoercedRow(r, done, p)[c] == if c in done then CoerceCell(r, c, p) else r[c]
    decreases |done|
  {
    if done != [] {
      var init := done[..|done| - 1];
      DistinctInit(done);
      CoercedCell(r, init, p, c);
      var last := done[|done| - 1];
      CoercedCell(r, init, p, last);
      assert Elements(done) == Elements(init) + {last};
      assert c in done <==> c in init || c == last;
    }
  }

  lemma {:induction false} ZeroedCell(r: Row, done: seq<string>, c: string)
    requires Distinct(done)
    ensures ZeroedRow(r, done).Keys == r.Keys + Elements(done)
    ensures c in r || c in done ==> ZeroedRow(r, done)[c] == if c in done then NonZero(Get(r, c)) else r[c]
    decreases |done|
  {
    if done != [] {
      var init := done[..|done| - 1];
      DistinctInit(done);
      ZeroedCell(r, init, c);
      var last := done[|done| - 1];
      ZeroedCell(r, init, last);
      assert Elements(done) == Elements(init) + {last};
      assert c in done <==> c in init || c == last;
    }
  }

  lemma {:induction false} TextCell(r: Row, done: seq<string>, c: string)
    requires Distinct(done)
    ensures TextRow(r, done).Keys == r.Keys
    ensures c in r ==> TextRow(r, done)[c] == if c in done then Placeholder(r[c]) else r[c]
    decreases |done|
  {
    if done != [] {
      var init := done[..|done| - 1];
      DistinctInit(done);
      TextCell(r, init, c);
      assert c in done <==> c in init || c == done[|done| - 1];
    }
  }

  lemma DistinctInit(cs: seq<string>)
    requires cs != [] && Distinct(cs)
    ensures Distinct(cs[..|cs| - 1]) && cs[|cs| - 1] !in cs[..|cs| - 1]
  {
  }

  lemma ColumnListsDistinct()
    ensures Distinct(JsonColumns) && Distinct(NumericColumns) && Distinct(ZeroMeansMissing)
    ensures Distinct(PlaceholderColumns)
  {
  }

  /** Lines 23-59 on one record: irrelevant columns dropped, JSON flattened, numbers and the date parsed. */
  function Parsed(raw: Row, p: Parsers): Row
  {
    var kept := raw - Elements(IrrelevantColumns);
    DatedRow(CoercedRow(FlattenedRow(kept, JsonColumns), NumericColumns, p), p)
  }

  /** Lines 62-80 on one record: zero-as-missing, millions, the rating rule and placeholders. */
  function Sanitised(d: Row): Row
  {
    TextRow(RatedRow(MillionsRow(ZeroedRow(d, ZeroMeansMissing))), PlaceholderColumns)
  }

  /** One raw record after lines 23-80. */
  function NormalizeRow(raw: Row, p: Parsers): Row
  {
    Sanitised(Parsed(raw, p))
  }

  /** The column list after lines 23-80. */
  function NormalizedColumns(cols: seq<string>): seq<string>
  {
    var kept := Without(cols, Elements(IrrelevantColumns));
    Without(AppendMissing(AppendMissing(kept, NumericColumns), MoneyColumns), {"budget", "revenue"})
  }

  /** Columns the transform computes itself; every other surviving column is copied. */
  predicate Recomputed(c: string)
  {
    c in JsonColumns || c in NumericColumns || c in MoneyColumns || c in PlaceholderColumns || c == "release_date"
  }

  // One fact per lemma about each half; the lemmas about `NormalizeRow` below combine them.

  lemma ParsedKeys(raw: Row, p: Parsers)
    requires "release_date" in raw
    ensures Parsed(raw, p).Keys == (raw.Keys - Elements(IrrelevantColumns)) + Elements(NumericColumns)
  {
    ColumnListsDistinct();
    var kept := raw - Elements(IrrelevantColumns);
    assert "release_date" in kept;
    FlattenedCell(kept, JsonColumns, "release_date");
    CoercedCell(FlattenedRow(kept, JsonColumns), NumericColumns, p, "release_date");
  }

  lemma ParsedHasNumeric(raw: Row, p: Parsers)
    requires "release_date" in raw
    ensures Elements(NumericColumns) <= Parsed(raw, p).Keys
  {
    ParsedKeys(raw, p);
  }

  lemma ParsedJson(raw: Row, p: Parsers, c: string)
    requires c in JsonColumns && c in raw
    ensures c in Parsed(raw, p) && Parsed(raw, p)[c] == Flatten(c, raw[c])
  {
    ColumnListsDistinct();
    var kept := raw - Elements(IrrelevantColumns);
    assert c !in IrrelevantColumns && c !in NumericColumns && c != "release_date";
    FlattenedCell(kept, JsonColumns, c);
    CoercedCell(FlattenedRow(kept, JsonColumns), NumericColumns, p, c);
  }

  lemma ParsedNumeric(raw: Row, p: Parsers, c: string)
    requires c in NumericColumns
    ensures c in Parsed(raw, p) && Parsed(raw, p)[c] == CoerceCell(raw, c, p)
  {
    ColumnListsDistinct();
    var kept := raw - Elements(IrrelevantColumns);
    assert c !in IrrelevantColumns && c !in JsonColumns && c != "release_date";
    FlattenedCell(kept, JsonColumns, c);
    CoercedCell(FlattenedRow(kept, JsonColumns), NumericColumns, p, c);
  }

  lemma ParsedDate(raw: Row, p: Parsers)
    requires "release_date" in raw
    ensures "release_date" in Parsed(raw, p)
    ensures Parsed(raw, p)["release_date"] == ParseDate(raw["release_date"], p)
  {
    ColumnListsDistinct();
    ReleaseDateApart();
    var kept := raw - Elements(IrrelevantColumns);
    assert "release_date" in kept && kept["release_date"] == raw["release_date"];
    var flat := FlattenedRow(kept, JsonColumns);
    FlattenedCell(kept, JsonColumns, "release_date");
    assert flat["release_date"] == raw["release_date"];
    var coerced := CoercedRow(flat, NumericColumns, p);
    CoercedCell(flat, NumericColumns, p, "release_date");
    assert coerced["release_date"] == raw["release_date"];
  }

  lemma ReleaseDateApart()
    ensures "release_date" !in Elements(IrrelevantColumns)
    ensures "release_date" !in JsonColumns && "release_date" !in NumericColumns
    ensures "release_date" !in Elements(NumericColumns)
  {
  }

  lemma ParsedCopied(raw: Row, p: Parsers, c: string)
    requires c in raw && c !in IrrelevantColumns && c !in JsonColumns && c !in NumericColumns && c != "release_date"
    ensures c in Parsed(raw, p) && Parsed(raw, p)[c] == raw[c]
  {
    ColumnListsDistinct();
    var kept := raw - Elements(IrrelevantColumns);
    FlattenedCell(kept, JsonColumns, c);
    CoercedCell(FlattenedRow(kept, JsonColumns), NumericColumns, p, c);
  }

  lemma SanitisedKeys(d: Row)
    requires Elements(NumericColumns) <= d.Keys
    ensures Sanitised(d).Keys == d.Keys + Elements(MoneyColumns) - {"budget", "revenue"}
  {
    ColumnListsDistinct();
    ZeroedCell(d, ZeroMeansMissing, "budget");
    assert Elements(ZeroMeansMissing) <= Elements(NumericColumns);
    TextCell(RatedRow(MillionsRow(ZeroedRow(d, ZeroMeansMissing))), PlaceholderColumns, "budget");
  }

  lemma SanitisedRating(d: Row)
    requires Elements(NumericColumns) <= d.Keys
    ensures "vote_count" in Sanitised(d) && "vote_average" in Sanitised(d)
    ensures Sanitised(d)["vote_average"] == Rating(d["vote_count"], d["vote_average"])
    ensures Sanitised(d)["vote_count"] == d["vote_count"]
  {
    ColumnListsDistinct();
    assert "vote_count" in NumericColumns && "vote_average" in NumericColumns;
    ZeroedCell(d, ZeroMeansMissing, "vote_count");
    ZeroedCell(d, ZeroMeansMissing, "vote_average");
    var rated := RatedRow(MillionsRow(ZeroedRow(d, ZeroMeansMissing)));
    TextCell(rated, PlaceholderColumns, "vote_count");
    TextCell(rated, PlaceholderColumns, "vote_average");
  }

  lemma SanitisedRuntime(d: Row)
    requires Elements(NumericColumns) <= d.Keys
    ensures "runtime" in Sanitised(d) && Sanitised(d)["runtime"] == NonZero(d["runtime"])
  {
    ColumnListsDistinct();
    assert "runtime" in NumericColumns;
    ZeroedCell(d, ZeroMeansMissing, "runtime");
    TextCell(RatedRow(MillionsRow(ZeroedRow(d, ZeroMeansMissing))), PlaceholderColumns, "runtime");
  }

  lemma SanitisedMoney(d: Row, c: string)
    requires Elements(NumericColumns) <= d.Keys && (c == "budget" || c == "revenue")
    ensures c + "_musd" in Sanitised(d) && Sanitised(d)[c + "_musd"] == Millions(NonZero(d[c]))
  {
    MoneyListFacts(c);
    ZeroedCell(d, ZeroMeansMissing, c);
    var zeroed := ZeroedRow(d, ZeroMeansMissing);
    MillionsCell(zeroed, c);
    TextCell(RatedRow(MillionsRow(zeroed)), PlaceholderColumns, c + "_musd");
  }

  lemma MillionsCell(z: Row, c: string)
    requires c == "budget" || c == "revenue"
    ensures var m := c + "_musd";
      m in RatedRow(MillionsRow(z)) && RatedRow(MillionsRow(z))[m] == Millions(Get(z, c))
  {
    var m := c + "_musd";
    if c == "budget" { assert m == "budget_musd"; } else { assert m == "revenue_musd"; }
  }

  lemma MoneyListFacts(c: string)
    requires c == "budget" || c == "revenue"
    ensures Distinct(ZeroMeansMissing) && Distinct(PlaceholderColumns)
    ensures c in Elements(NumericColumns) && c in ZeroMeansMissing && c + "_musd" !in PlaceholderColumns
    ensures c + "_musd" != "vote_average"
  {
    assert c in NumericColumns;
    if c == "budget" { assert c + "_musd" == "budget_musd"; } else { assert c + "_musd" == "revenue_musd"; }
  }

  lemma SanitisedText(d: Row, c: string)
    requires Elements(NumericColumns) <= d.Keys && c in PlaceholderColumns && c in d
    ensures c in Sanitised(d) && Sanitised(d)[c] == Placeholder(d[c])
  {
    ColumnListsDistinct();
    assert c !in ZeroMeansMissing && c !in MoneyColumns && c != "budget" && c != "revenue" && c != "vote_average";
    ZeroedCell(d, ZeroMeansMissing, c);
    TextCell(RatedRow(MillionsRow(ZeroedRow(d, ZeroMeansMissing))), PlaceholderColumns, c);
  }

  lemma SanitisedCopied(d: Row, c: string)
    requires Elements(NumericColumns) <= d.Keys && c in d
    requires c !in ZeroMeansMissing && c !in MoneyColumns && c != "vote_average" && c !in PlaceholderColumns
    requires c != "budget" && c != "revenue"
    ensures c in Sanitised(d) && Sanitised(d)[c] == d[c]
  {
    ColumnListsDistinct();
    ZeroedCell(d, ZeroMeansMissing, c);
    TextCell(RatedRow(MillionsRow(ZeroedRow(d, ZeroMeansMissing))), PlaceholderColumns, c);
  }

  /** A normalised record is keyed by the normalised column list. */
  lemma NormalizedKeys(raw: Row, cols: seq<string>, p: Parsers)
    requires raw.Keys == Elements(cols) && "release_date" in raw
    ensures NormalizeRow(raw, p).Keys == Elements(NormalizedColumns(cols))
  {
    ParsedKeys(raw, p);
    SanitisedKeys(Parsed(raw, p));
  }

  /**
   * A JSON column present in the record holds the flattened value: the joined names of
   * a list column, the collection name of `belongs_to_collection`.
   */
  lemma NormalizedJson(raw: Row, p: Parsers, c: string)
    requires "release_date" in raw && c in JsonColumns && c in raw
    ensures c in NormalizeRow(raw, p) && NormalizeRow(raw, p)[c] == Flatten(c, raw[c])
  {
    ParsedHasNumeric(raw, p);
    ParsedJson(raw, p, c);
    SanitisedCopied(Parsed(raw, p), c);
  }

  /**
   * Zero means missing: a budget or revenue that coerces to 0, or fails to parse,
   * gives a missing amount in millions; any other amount is divided by 1 000 000.
   * The raw column itself is gone.
   */
  lemma MoneyInMillions(raw: Row, p: Parsers, c: string)
    requires "release_date" in raw && (c == "budget" || c == "revenue")
    ensures c + "_musd" in NormalizeRow(raw, p)
    ensures var m := NormalizeRow(raw, p)[c + "_musd"];
      && (CoerceCell(raw, c, p) == Num(0.0) || CoerceCell(raw, c, p) == Missing ==> m == Missing)
      && (forall x :: CoerceCell(raw, c, p) == Num(x) && x != 0.0 ==> m == Num(x / 1000000.0))
      && c !in NormalizeRow(raw, p)
  {
    var d := Parsed(raw, p);
    ParsedHasNumeric(raw, p);
    ParsedNumeric(raw, p, c);
    SanitisedKeys(d);
    SanitisedMoney(d, c);
    MillionsOfNonZero(CoerceCell(raw, c, p));
  }

  lemma MillionsOfNonZero(v: Value)
    ensures v == Num(0.0) || v == Missing ==> Millions(NonZero(v)) == Missing
    ensures forall x :: v == Num(x) && x != 0.0 ==> Millions(NonZero(v)) == Num(x / 1000000.0)
  {
  }

  /** A runtime of 0, or one that fails to parse, is missing; any other runtime is kept. */
  lemma RuntimeZeroMissing(raw: Row, p: Parsers)
    requires "release_date" in raw
    ensures "runtime" in NormalizeRow(raw, p)
    ensures var v := NormalizeRow(raw, p)["runtime"];
      && (CoerceCell(raw, "runtime", p) == Num(0.0) ==> v == Missing)
      && (CoerceCell(raw, "runtime", p) != Num(0.0) ==> v == CoerceCell(raw, "runtime", p))
  {
    ParsedNumeric(raw, p, "runtime");
    ParsedHasNumeric(raw, p);
    SanitisedRuntime(Parsed(raw, p));
  }

  /** A zero vote count forces the average to 0; otherwise the coerced average is kept. */
  lemma RatingSanitised(raw: Row, p: Parsers)
    requires "release_date" in raw
    ensures "vote_count" in NormalizeRow(raw, p) && "vote_average" in NormalizeRow(raw, p)
    ensures var r := NormalizeRow(raw, p);
      && r["vote_count"] == CoerceCell(raw, "vote_count", p)
      && (r["vote_count"] == Num(0.0) ==> r["vote_average"] == Num(0.0))
      && (r["vote_count"] != Num(0.0) ==> r["vote_average"] == CoerceCell(raw, "vote_average", p))
  {
    ParsedHasNumeric(raw, p);
    ParsedNumeric(raw, p, "vote_count");
    ParsedNumeric(raw, p, "vote_average");
    SanitisedRating(Parsed(raw, p));
  }

  /** Exactly "No Data" and "" become missing in `overview` and `tagline`; other text is kept. */
  lemma PlaceholdersMissing(raw: Row, p: Parsers, c: string)
    requires "release_date" in raw && c in PlaceholderColumns && c in raw
    ensures c in NormalizeRow(raw, p)
    ensures var v := NormalizeRow(raw, p)[c];
      && (v == Missing <==> raw[c] == Missing || raw[c] == Str("No Data") || raw[c] == Str(""))
      && (v != Missing ==> v == raw[c])
  {
    TextListFacts(c);
    ParsedHasNumeric(raw, p);
    ParsedCopied(raw, p, c);
    SanitisedText(Parsed(raw, p), c);
    PlaceholderMeaning(raw[c]);
  }

  lemma TextListFacts(c: string)
    requires c in PlaceholderColumns
    ensures c !in IrrelevantColumns && c !in JsonColumns && c !in NumericColumns && c != "release_date"
  {
  }

  lemma PlaceholderMeaning(v: Value)
    ensures Placeholder(v) == Missing <==> v == Missing || v == Str("No Data") || v == Str("")
    ensures Placeholder(v) != Missing ==> Placeholder(v) == v
  {
  }

  /** Every column the transform does not compute keeps its raw value. */
  lemma NormalizedCopies(raw: Row, p: Parsers, c: string)
    requires "release_date" in raw && c in raw && c !in IrrelevantColumns && !Recomputed(c)
    ensures c in NormalizeRow(raw, p) && NormalizeRow(raw, p)[c] == raw[c]
  {
    ParsedKeys(raw, p);
    ParsedCopied(raw, p, c);
    SanitisedKeys(Parsed(raw, p));
    SanitisedCopied(Parsed(raw, p), c);
  }
}
