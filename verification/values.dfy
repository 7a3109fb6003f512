/** Cells of the movie table, and the JSON values nested inside them. */
module Values {

  datatype Option<+T> = None | Some(value: T)

  datatype Result<+T, +E> = Ok(value: T) | Err(error: E)

  /** Why the cleaning transform or the analysis stops: each case is an exception the source raises. */
  datatype Error =
    | MalformedNames               // a list entry of a JSON column on which `'name' in i`, `i['name']` or the join fails
    | MissingColumn(name: string)   // a column that is indexed unconditionally is absent
    | MalformedCredits             // `get_director`, `get_cast` or a size lambda fails on a `credits` value
    | NotComparable(column: string) // a column compared with `>=` or sorted holds a cell that is neither a number nor missing
    | Unhashable(column: string)    // a column counted or grouped on holds a list or an object, which cannot be a hash key

  /**
   * A table cell. `Missing` stands for every value the table library counts as
   * missing (NaN, None, NaT, pd.NA) and for a key absent from a raw record; a JSON
   * `null` is `Missing` too. Numbers are exact reals.
   */
  datatype Value =
    | Missing
    | Bool(b: bool)
    | Num(n: real)
    | Str(s: string)
    | Date(day: int)
    | List(items: seq<Value>)
    | Dict(fields: map<string, Value>)

  /** A cell that can be a hash key, as `value_counts` and `groupby` need: lists and objects cannot. */
  predicate Hashable(v: Value)
  {
    !v.List? && !v.Dict?
  }

  /** One table row: column name to cell. */
  type Row = map<string, Value>

  /** The cell of column `c`, or `Missing` when the row has no such column (`dict.get`). */
  function Get(r: Row, c: string): Value
  {
    if c in r then r[c] else Missing
  }

  function Elements(cs: seq<string>): set<string>
  {
    set c | c in cs
  }

  predicate Distinct(cs: seq<string>)
  {
    forall i, j :: 0 <= i < j < |cs| ==> cs[i] != cs[j]
  }
}
