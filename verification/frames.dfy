/**
 * The in-memory table the transform works on (a pandas DataFrame): an ordered list
 * of column names and a sequence of rows, each row keyed by exactly those columns.
 * The functions here are the table operations the source calls.
 */
module Frames {
  import opened Values

  datatype Frame = Frame(columns: seq<string>, rows: seq<Row>)

  predicate WellFormed(f: Frame)
  {
    && Distinct(f.columns)
    && forall i :: 0 <= i < |f.rows| ==> f.rows[i].Keys == Elements(f.columns)
  }

  /** `xs` keeps some of the elements of `ys`, in the order of `ys`. */
  predicate IsSubsequence(xs: seq<string>, ys: seq<string>)
    decreases |ys|
  {
    if xs == [] then true
    else if ys == [] then false
    else if xs[0] == ys[0] then IsSubsequence(xs[1..], ys[1..])
    else IsSubsequence(xs, ys[1..])
  }

  lemma {:induction false} SubsequenceOfTail(xs: seq<string>, ys: seq<string>)
    requires ys != [] && IsSubsequence(xs, ys[1..])
    ensures IsSubsequence(xs, ys)
    decreases |ys|, 0
  {
    if xs != [] && xs[0] == ys[0] {
      SubsequenceDropHead(xs, ys[1..]);
    }
  }

  lemma {:induction false} SubsequenceDropHead(xs: seq<string>, ys: seq<string>)
    requires xs != [] && IsSubsequence(xs, ys)
    ensures IsSubsequence(xs[1..], ys)
    decreases |ys|, 1
  {
    if xs[0] == ys[0] {
      SubsequenceOfTail(xs[1..], ys);
    } else {
      SubsequenceDropHead(xs, ys[1..]);
      SubsequenceOfTail(xs[1..], ys);
    }
  }

  /** Prepending an element that does not occur keeps a list free of repeats. */
  lemma ConsDistinct(x: string, rest: seq<string>)
    requires Distinct(rest) && x !in rest
    ensures Distinct([x] + rest) && Elements([x] + rest) == {x} + Elements(rest)
  {
    var r := [x] + rest;
    forall i, j | 0 <= i < j < |r| ensures r[i] != r[j] {
      if i > 0 { assert r[i] == rest[i - 1] && r[j] == rest[j - 1]; }
      else { assert r[j] == rest[j - 1]; }
    }
  }

  lemma DistinctTail(cs: seq<string>)
    requires cs != [] && Distinct(cs)
    ensures cs[0] !in cs[1..] && Distinct(cs[1..])
  {
    forall k | 0 <= k < |cs[1..]| ensures cs[1..][k] != cs[0] {
      assert cs[1..][k] == cs[k + 1];
    }
    forall i, j | 0 <= i < j < |cs[1..]| ensures cs[1..][i] != cs[1..][j] {
      assert cs[1..][i] == cs[i + 1] && cs[1..][j] == cs[j + 1];
    }
  }

  /** The columns of `cs` that are not in `drop`, in order (`df.drop(columns=...)`). */
  function Without(cs: seq<string>, drop: set<string>): (r: seq<string>)
    ensures Elements(r) == Elements(cs) - drop
    ensures Distinct(cs) ==> Distinct(r)
    ensures IsSubsequence(r, cs)
  {
    if cs == [] then []
    else
      var rest := Without(cs[1..], drop);
      assert Elements(cs) == {cs[0]} + Elements(cs[1..]);
      if cs[0] in drop then
        SubsequenceOfTail(rest, cs);
        rest
      else
        assert Elements([cs[0]] + rest) == {cs[0]} + Elements(rest);
        if Distinct(cs) then DistinctTail(cs); ConsDistinct(cs[0], rest); [cs[0]] + rest else [cs[0]] + rest
  }

  /** Two distinct lists with no common element concatenate to a distinct list. */
  lemma DistinctConcat(xs: seq<string>, ys: seq<string>)
    requires Distinct(xs) && Distinct(ys) && Elements(xs) !! Elements(ys)
    ensures Distinct(xs + ys) && Elements(xs + ys) == Elements(xs) + Elements(ys)
  {
    var r := xs + ys;
    forall i, j | 0 <= i < j < |r| ensures r[i] != r[j] {
      if j < |xs| {
        assert r[i] == xs[i] && r[j] == xs[j];
      } else if i >= |xs| {
        assert r[i] == ys[i - |xs|] && r[j] == ys[j - |xs|];
      } else {
        assert r[i] in Elements(xs) && r[j] in Elements(ys);
      }
    }
  }

  /** The column list after `df[c] = ...` for one column `c`. */
  function WithColumn(cs: seq<string>, c: string): (r: seq<string>)
    ensures Elements(r) == Elements(cs) + {c}
    ensures Distinct(cs) ==> Distinct(r)
  {
    if c in cs then cs
    else
      assert Distinct(cs) ==> Distinct(cs + [c]) by {
        if Distinct(cs) {
          forall i, j | 0 <= i < j < |cs + [c]| ensures (cs + [c])[i] != (cs + [c])[j] {
            if j == |cs| { assert (cs + [c])[i] in cs; }
          }
        }
      }
      cs + [c]
  }

  /** The column list after `df[c] = ...` for each `c` of `news` in turn: a new column is appended. */
  function AppendMissing(cs: seq<string>, news: seq<string>): (r: seq<string>)
    ensures Elements(r) == Elements(cs) + Elements(news)
    ensures Distinct(cs) ==> Distinct(r)
    ensures |cs| <= |r| && r[..|cs|] == cs
    decreases |news|
  {
    if news == [] then cs
    else
      var last := news[|news| - 1];
      var prev := AppendMissing(cs, news[..|news| - 1]);
      assert Elements(news) == Elements(news[..|news| - 1]) + {last};
      if last in prev then prev
      else
        assert Elements(prev + [last]) == Elements(prev) + {last};
        assert Distinct(prev) ==> Distinct(prev + [last]) by {
          if Distinct(prev) {
            var r := prev + [last];
            forall i, j | 0 <= i < j < |r| ensures r[i] != r[j] {
              if j == |prev| { assert r[i] in prev; }
              else { assert r[i] == prev[i] && r[j] == prev[j]; }
            }
          }
        }
        assert (prev + [last])[..|cs|] == prev[..|cs|];
        prev + [last]
  }

  /** `[c for c in target if c in cols]`. */
  function Present(target: seq<string>, cols: seq<string>): (r: seq<string>)
    ensures Elements(r) == Elements(target) * Elements(cols)
    ensures Distinct(target) ==> Distinct(r)
    ensures IsSubsequence(r, target)
  {
    if target == [] then []
    else
      var rest := Present(target[1..], cols);
      assert Elements(target) == {target[0]} + Elements(target[1..]);
      if target[0] in cols then
        assert Elements([target[0]] + rest) == {target[0]} + Elements(rest);
        if Distinct(target) then DistinctTail(target); ConsDistinct(target[0], rest); [target[0]] + rest else [target[0]] + rest
      else
        SubsequenceOfTail(rest, target);
        rest
  }

  /** `df.drop(columns=drop)` for columns that are present. */
  function DropColumns(f: Frame, drop: set<string>): (g: Frame)
    requires WellFormed(f)
    ensures WellFormed(g)
    ensures Elements(g.columns) == Elements(f.columns) - drop
    ensures |g.rows| == |f.rows|
    ensures forall i :: 0 <= i < |f.rows| ==> g.rows[i] == f.rows[i] - drop
  {
    Frame(Without(f.columns, drop), seq(|f.rows|, i requires 0 <= i < |f.rows| => f.rows[i] - drop))
  }

  /**
   * `df[c] = values`, the value of each row computed from that row: the column is
   * overwritten where it exists and appended otherwise.
   */
  function SetColumn(f: Frame, c: string, g: Row -> Value): (h: Frame)
    requires WellFormed(f)
    ensures WellFormed(h)
    ensures h.columns == if c in f.columns then f.columns else f.columns + [c]
    ensures |h.rows| == |f.rows|
    ensures forall i :: 0 <= i < |f.rows| ==> h.rows[i] == f.rows[i][c := g(f.rows[i])]
  {
    var cols := if c in f.columns then f.columns else f.columns + [c];
    assert Elements(cols) == Elements(f.columns) + {c};
    Frame(cols, seq(|f.rows|, i requires 0 <= i < |f.rows| => f.rows[i][c := g(f.rows[i])]))
  }

  /** The cells of `r` in the columns `keep`. */
  function Restrict(r: Row, keep: set<string>): (s: Row)
    ensures s.Keys == r.Keys * keep
    ensures forall c :: c in s ==> s[c] == r[c]
  {
    r - (r.Keys - keep)
  }

  /** `df[cols]`: the listed columns, in the listed order. */
  function Select(f: Frame, cols: seq<string>): (g: Frame)
    requires WellFormed(f) && Distinct(cols) && Elements(cols) <= Elements(f.columns)
    ensures WellFormed(g) && g.columns == cols && |g.rows| == |f.rows|
    ensures forall i :: 0 <= i < |f.rows| ==> g.rows[i] == Restrict(f.rows[i], Elements(cols))
  {
    Frame(cols, seq(|f.rows|, i requires 0 <= i < |f.rows| => Restrict(f.rows[i], Elements(cols))))
  }

  /** The rows for which `keep` holds, in their order (boolean-mask indexing `df[mask]`). */
  function Filter(rows: seq<Row>, keep: Row -> bool): (r: seq<Row>)
    ensures |r| <= |rows|
    ensures forall x :: x in r ==> x in rows && keep(x)
    ensures multiset(r) <= multiset(rows)
  {
    if rows == [] then []
    else
      assert rows == [rows[0]] + rows[1..];
      (if keep(rows[0]) then [rows[0]] else []) + Filter(rows[1..], keep)
  }

  /** A row passes the mask exactly when it is kept. */
  lemma {:induction false} FilterMembers(rows: seq<Row>, keep: Row -> bool, x: Row)
    ensures x in Filter(rows, keep) <==> x in rows && keep(x)
    decreases |rows|
  {
    if rows != [] {
      FilterMembers(rows[1..], keep, x);
      assert rows == [rows[0]] + rows[1..];
    }
  }

  function FilterRows(f: Frame, keep: Row -> bool): (g: Frame)
    requires WellFormed(f)
    ensures WellFormed(g) && g.columns == f.columns
    ensures forall x :: x in g.rows ==> x in f.rows && keep(x)
  {
    var r := Filter(f.rows, keep);
    assert forall i :: 0 <= i < |r| ==> r[i] in f.rows;
    Frame(f.columns, r)
  }

  /** No two rows share a value in column `c`. */
  predicate DistinctOn(rows: seq<Row>, c: string)
  {
    forall i, j :: 0 <= i < j < |rows| ==> Get(rows[i], c) != Get(rows[j], c)
  }

  /** Masking a table whose column `c` has distinct values keeps them distinct. */
  lemma {:induction false} FilterKeepsDistinct(rows: seq<Row>, keep: Row -> bool, c: string)
    requires DistinctOn(rows, c)
    ensures DistinctOn(Filter(rows, keep), c)
    decreases |rows|
  {
    if rows != [] {
      var tail := rows[1..];
      assert DistinctOn(tail, c) by {
        forall i, j | 0 <= i < j < |tail| ensures Get(tail[i], c) != Get(tail[j], c) {
          assert tail[i] == rows[i + 1] && tail[j] == rows[j + 1];
        }
      }
      FilterKeepsDistinct(tail, keep, c);
      var rest := Filter(tail, keep);
      if keep(rows[0]) {
        var r := [rows[0]] + rest;
        forall i, j | 0 <= i < j < |r| ensures Get(r[i], c) != Get(r[j], c) {
          if i == 0 {
            assert r[j] in tail;
            var k :| 0 <= k < |tail| && tail[k] == r[j];
            assert rows[k + 1] == r[j];
          } else {
            assert r[i] == rest[i - 1] && r[j] == rest[j - 1];
          }
        }
      }
    }
  }
}
