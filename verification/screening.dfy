/**
 * The row filters of `process_data` (src/process_data.py, lines 82-95):
 * `drop_duplicates(subset='id')`, `dropna(subset=['id', 'title'])`,
 * `dropna(thresh=10)` and the `status == 'Released'` filter with the `status`
 * column dropped afterwards.
 */
module Screening {
  import opened Values
  import opened Frames

  // ---------------------------------------------------------------------------
  // drop_duplicates

  /** Row `j` is the first row carrying its value in column `c`. */
  predicate FirstOccurrence(rows: seq<Row>, c: string, j: int)
    requires 0 <= j < |rows|
  {
    forall k :: 0 <= k < j ==> Get(rows[k], c) != Get(rows[j], c)
  }

  /**
   * `drop_duplicates(subset=c)` with `keep='first'`, given the values already seen.
   * Missing values compare equal to each other here, as they do in the library.
   */
  function Dedup(rows: seq<Row>, c: string, seen: set<Value>): (r: seq<Row>)
    ensures |r| <= |rows| && multiset(r) <= multiset(rows)
    ensures forall x :: x in r ==> x in rows
    decreases |rows|
  {
    if rows == [] then []
    else
      assert rows == [rows[0]] + rows[1..];
      var k := Get(rows[0], c);
      if k in seen then Dedup(rows[1..], c, seen)
      else [rows[0]] + Dedup(rows[1..], c, seen + {k})
  }

  /** No two kept rows share a value in `c`, and no kept value was seen before. */
  lemma {:induction false} DedupDistinct(rows: seq<Row>, c: string, seen: set<Value>)
    ensures DistinctOn(Dedup(rows, c, seen), c)
    ensures forall x :: x in Dedup(rows, c, seen) ==> Get(x, c) !in seen
    decreases |rows|
  {
    if rows != [] {
      var k := Get(rows[0], c);
      if k in seen {
        DedupDistinct(rows[1..], c, seen);
      } else {
        DedupDistinct(rows[1..], c, seen + {k});
        var rest := Dedup(rows[1..], c, seen + {k});
        var r := [rows[0]] + rest;
        forall i, j | 0 <= i < j < |r| ensures Get(r[i], c) != Get(r[j], c) {
          assert r[j] == rest[j - 1] && r[j] in rest;
          if i > 0 {
            assert r[i] == rest[i - 1];
          }
        }
      }
    }
  }

  /** A kept row is the first occurrence of its value, which had not been seen. */
  lemma {:induction false} DedupOnlyFirst(rows: seq<Row>, c: string, seen: set<Value>, x: Row)
    requires x in Dedup(rows, c, seen)
    ensures exists j :: 0 <= j < |rows| && rows[j] == x && Get(x, c) !in seen && FirstOccurrence(rows, c, j)
    decreases |rows|
  {
    var k := Get(rows[0], c);
    var tail := rows[1..];
    var seen' := if k in seen then seen else seen + {k};
    if k !in seen && x == rows[0] {
      assert FirstOccurrence(rows, c, 0);
    } else {
      assert x in Dedup(tail, c, seen');
      DedupOnlyFirst(tail, c, seen', x);
      var j :| 0 <= j < |tail| && tail[j] == x && Get(x, c) !in seen' && FirstOccurrence(tail, c, j);
      assert rows[j + 1] == x;
      forall m | 0 <= m < j + 1 ensures Get(rows[m], c) != Get(rows[j + 1], c) {
        if m > 0 { assert rows[m] == tail[m - 1]; }
      }
      assert FirstOccurrence(rows, c, j + 1);
    }
  }

  /** The first occurrence of a value not seen before is kept. */
  lemma {:induction false} DedupKeepsFirst(rows: seq<Row>, c: string, seen: set<Value>, j: nat)
    requires j < |rows| && Get(rows[j], c) !in seen && FirstOccurrence(rows, c, j)
    ensures rows[j] in Dedup(rows, c, seen)
    decreases |rows|
  {
    var k := Get(rows[0], c);
    var tail := rows[1..];
    if j > 0 {
      var seen' := if k in seen then seen else seen + {k};
      assert Get(rows[0], c) != Get(rows[j], c);
      assert tail[j - 1] == rows[j];
      forall m | 0 <= m < j - 1 ensures Get(tail[m], c) != Get(tail[j - 1], c) {
        assert tail[m] == rows[m + 1];
      }
      DedupKeepsFirst(tail, c, seen', j - 1);
    }
  }

  /** Every value of `c` that occurs keeps one row (values not seen before). */
  lemma {:induction false} DedupKeepsEveryValue(rows: seq<Row>, c: string, seen: set<Value>, j: nat)
    requires j < |rows| && Get(rows[j], c) !in seen
    ensures exists x :: x in Dedup(rows, c, seen) && Get(x, c) == Get(rows[j], c)
    decreases |rows|
  {
    var k := Get(rows[0], c);
    if k !in seen && k == Get(rows[j], c) {
      assert rows[0] in Dedup(rows, c, seen);
    } else {
      assert j > 0;
      var seen' := if k in seen then seen else seen + {k};
      assert rows[1..][j - 1] == rows[j];
      DedupKeepsEveryValue(rows[1..], c, seen', j - 1);
    }
  }

  function Deduplicated(f: Frame): (g: Frame)
    requires WellFormed(f)
    ensures WellFormed(g) && g.columns == f.columns
    ensures forall x :: x in g.rows ==> x in f.rows
  {
    var r := Dedup(f.rows, "id", {});
    assert forall i :: 0 <= i < |r| ==> r[i] in f.rows;
    Frame(f.columns, r)
  }

  // ---------------------------------------------------------------------------
  // dropna and the status filter

  predicate HasIdAndTitle(r: Row)
  {
    Get(r, "id") != Missing && Get(r, "title") != Missing
  }

  /** `dropna(subset=['id', 'title'])`. */
  function Identified(f: Frame): (g: Frame)
    requires WellFormed(f)
    ensures WellFormed(g) && g.columns == f.columns
  {
    FilterRows(f, HasIdAndTitle)
  }

  const MinPresent: nat := 10

  /** The number of the columns `cols` whose cell is not missing; "" counts as present. */
  function PresentCount(r: Row, cols: seq<string>): (n: nat)
    ensures n <= |cols|
  {
    if cols == [] then 0
    else (if Get(r, cols[0]) != Missing then 1 else 0) + PresentCount(r, cols[1..])
  }

  /** `dropna(thresh=10)`: rows with at least ten cells present over all columns. */
  function Thresholded(f: Frame): (g: Frame)
    requires WellFormed(f)
    ensures WellFormed(g) && g.columns == f.columns
  {
    FilterRows(f, r => PresentCount(r, f.columns) >= MinPresent)
  }

  predicate IsReleased(r: Row)
  {
    Get(r, "status") == Str("Released")
  }

  /** Lines 93-95: when there is a `status` column, keep the released rows and drop the column. */
  function ReleasedOnly(f: Frame): (g: Frame)
    requires WellFormed(f)
    ensures WellFormed(g) && g.columns == Without(f.columns, {"status"})
  {
    if "status" in f.columns then DropColumns(FilterRows(f, IsReleased), {"status"})
    else
      WithoutAbsent(f.columns, "status");
      f
  }

  lemma {:induction false} WithoutAbsent(cs: seq<string>, c: string)
    requires c !in cs
    ensures Without(cs, {c}) == cs
  {
    if cs != [] {
      WithoutAbsent(cs[1..], c);
      assert [cs[0]] + cs[1..] == cs;
    }
  }

  /**
   * Lines 84-95. `dropna(subset=[..., 'title'])` raises when there is no `title`
   * column; the `id` column always exists at this point.
   */
  function Screen(n: Frame): (res: Result<Frame, Error>)
    requires WellFormed(n)
    ensures res.Err? <==> "title" !in n.columns
    ensures res.Err? ==> res.error == MissingColumn("title")
    ensures res.Ok? ==> WellFormed(res.value) && res.value.columns == Without(n.columns, {"status"})
  {
    if "title" !in n.columns then Err(MissingColumn("title"))
    else Ok(ReleasedOnly(Prefiltered(n)))
  }

  // ---------------------------------------------------------------------------
  // What the filters keep

  /** Row `j` of the table entering line 84 survives lines 84-90. */
  predicate Passes(n: Frame, j: int)
    requires 0 <= j < |n.rows|
  {
    && FirstOccurrence(n.rows, "id", j)
    && HasIdAndTitle(n.rows[j])
    && PresentCount(n.rows[j], n.columns) >= MinPresent
  }

  /** Row `j` of the table entering line 84 survives lines 84-95. */
  predicate Kept(n: Frame, j: int)
    requires 0 <= j < |n.rows|
  {
    Passes(n, j) && ("status" in n.columns ==> IsReleased(n.rows[j]))
  }

  /** A row without its `status` cell. */
  function Strip(r: Row): Row
  {
    r - {"status"}
  }

  /** The table after line 90. */
  function Prefiltered(n: Frame): (g: Frame)
    requires WellFormed(n)
    ensures WellFormed(g) && g.columns == n.columns
  {
    Thresholded(Identified(Deduplicated(n)))
  }

  lemma PassesIn(n: Frame, j: nat)
    requires WellFormed(n) && j < |n.rows| && Passes(n, j)
    ensures n.rows[j] in Prefiltered(n).rows
  {
    var y := n.rows[j];
    DedupKeepsFirst(n.rows, "id", {}, j);
    var d := Deduplicated(n);
    FilterMembers(d.rows, HasIdAndTitle, y);
    FilterMembers(Identified(d).rows, r => PresentCount(r, n.columns) >= MinPresent, y);
  }

  lemma InPasses(n: Frame, y: Row)
    requires WellFormed(n) && y in Prefiltered(n).rows
    ensures exists j :: 0 <= j < |n.rows| && n.rows[j] == y && Passes(n, j)
  {
    var d := Deduplicated(n);
    FilterMembers(Identified(d).rows, r => PresentCount(r, n.columns) >= MinPresent, y);
    FilterMembers(d.rows, HasIdAndTitle, y);
    DedupOnlyFirst(n.rows, "id", {}, y);
    var j :| 0 <= j < |n.rows| && n.rows[j] == y && FirstOccurrence(n.rows, "id", j);
    assert Passes(n, j);
  }

  lemma DropMembers(f: Frame, drop: set<string>, x: Row)
    requires WellFormed(f)
    ensures x in DropColumns(f, drop).rows <==> exists y :: y in f.rows && x == y - drop
  {
    var g := DropColumns(f, drop);
    if x in g.rows {
      var i :| 0 <= i < |g.rows| && g.rows[i] == x;
      assert f.rows[i] in f.rows;
    }
    if exists y :: y in f.rows && x == y - drop {
      var y :| y in f.rows && x == y - drop;
      var i :| 0 <= i < |f.rows| && f.rows[i] == y;
      assert g.rows[i] == x;
    }
  }

  /** Every output row of lines 84-95 is a kept input row without `status`. */
  lemma ScreenOnlyKept(n: Frame, x: Row)
    requires WellFormed(n) && "title" in n.columns && x in Screen(n).value.rows
    ensures exists j :: 0 <= j < |n.rows| && Kept(n, j) && x == Strip(n.rows[j])
  {
    var t := Prefiltered(n);
    if "status" in n.columns {
      var released := FilterRows(t, IsReleased);
      DropMembers(released, {"status"}, x);
      var y :| y in released.rows && x == y - {"status"};
      FilterMembers(t.rows, IsReleased, y);
      InPasses(n, y);
      var j :| 0 <= j < |n.rows| && n.rows[j] == y && Passes(n, j);
      assert Kept(n, j);
    } else {
      InPasses(n, x);
      var j :| 0 <= j < |n.rows| && n.rows[j] == x && Passes(n, j);
      assert "status" !in n.rows[j];
      assert x == Strip(n.rows[j]);
    }
  }

  /** Every kept input row comes out of lines 84-95, without `status`. */
  lemma ScreenKeepsKept(n: Frame, j: nat)
    requires WellFormed(n) && "title" in n.columns && j < |n.rows| && Kept(n, j)
    ensures Strip(n.rows[j]) in Screen(n).value.rows
  {
    var t := Prefiltered(n);
    var y := n.rows[j];
    PassesIn(n, j);
    if "status" in n.columns {
      var released := FilterRows(t, IsReleased);
      FilterMembers(t.rows, IsReleased, y);
      DropMembers(released, {"status"}, Strip(y));
    } else {
      assert "status" !in y;
      assert Strip(y) == y;
    }
  }

  lemma DropKeepsDistinct(f: Frame, drop: set<string>, c: string)
    requires WellFormed(f) && DistinctOn(f.rows, c) && c !in drop
    ensures DistinctOn(DropColumns(f, drop).rows, c)
  {
    var g := DropColumns(f, drop);
    forall i, j | 0 <= i < j < |g.rows| ensures Get(g.rows[i], c) != Get(g.rows[j], c) {
      assert Get(g.rows[i], c) == Get(f.rows[i], c) && Get(g.rows[j], c) == Get(f.rows[j], c);
    }
  }

  /** After line 84 no two rows share an `id`, and the later filters keep it so. */
  lemma ScreenDistinctIds(n: Frame)
    requires WellFormed(n) && "title" in n.columns
    ensures DistinctOn(Screen(n).value.rows, "id")
  {
    var d := Deduplicated(n);
    DedupDistinct(n.rows, "id", {});
    FilterKeepsDistinct(d.rows, HasIdAndTitle, "id");
    var i := Identified(d);
    FilterKeepsDistinct(i.rows, r => PresentCount(r, n.columns) >= MinPresent, "id");
    var t := Prefiltered(n);
    if "status" in n.columns {
      FilterKeepsDistinct(t.rows, IsReleased, "id");
      DropKeepsDistinct(FilterRows(t, IsReleased), {"status"}, "id");
    }
  }
}
