/** The string operations the transform and the queries use: `"|".join`, `str.split("|")`, `str.contains`. */
module Text {

  /** `"|".join(parts)`. */
  function Join(parts: seq<string>): string
  {
    if parts == [] then ""
    else if |parts| == 1 then parts[0]
    else parts[0] + "|" + Join(parts[1..])
  }

  /** `s.split("|")`: always at least one part. */
  function Split(s: string): (parts: seq<string>)
    ensures |parts| > 0
  {
    if s == [] then [""]
    else
      var rest := Split(s[1..]);
      if s[0] == '|' then [""] + rest
      else [[s[0]] + rest[0]] + rest[1..]
  }

  /** `sub in s` (and `str.contains` with a pattern free of regular-expression metacharacters). */
  predicate Contains(s: string, sub: string)
  {
    exists i | 0 <= i <= |s| - |sub| :: OccursAt(s, sub, i)
  }

  predicate OccursAt(s: string, sub: string, i: int)
    requires 0 <= i <= |s| - |sub|
  {
    s[i..i + |sub|] == sub
  }

  predicate PipeFree(parts: seq<string>)
  {
    forall k :: 0 <= k < |parts| ==> '|' !in parts[k]
  }

  lemma {:induction false} SplitPipeFree(a: string)
    requires '|' !in a
    ensures Split(a) == [a]
    decreases |a|
  {
    if a != [] {
      SplitPipeFree(a[1..]);
      assert [a[0]] + a[1..] == a;
    }
  }

  lemma {:induction false} SplitAfterPart(a: string, t: string)
    requires '|' !in a
    ensures Split(a + "|" + t) == [a] + Split(t)
    decreases |a|
  {
    if a == [] {
      assert a + "|" + t == ['|'] + t;
      assert (a + "|" + t)[1..] == t;
    } else {
      var s := a + "|" + t;
      assert s[0] == a[0];
      assert s[1..] == a[1..] + "|" + t;
      SplitAfterPart(a[1..], t);
      assert [a[0]] + a[1..] == a;
    }
  }

  /** Joining with `|` loses nothing when no part contains a `|`: splitting gives the parts back. */
  lemma {:induction false} SplitJoin(parts: seq<string>)
    requires parts != [] && PipeFree(parts)
    ensures Split(Join(parts)) == parts
    decreases |parts|
  {
    if |parts| == 1 {
      SplitPipeFree(parts[0]);
    } else {
      SplitJoin(parts[1..]);
      SplitAfterPart(parts[0], Join(parts[1..]));
      assert [parts[0]] + parts[1..] == parts;
    }
  }

  lemma ContainsPrefix(a: string, t: string)
    ensures Contains(a + t, a)
  {
    assert OccursAt(a + t, a, 0);
  }

  lemma ContainsInSuffix(a: string, t: string, sub: string)
    requires Contains(t, sub)
    ensures Contains(a + t, sub)
  {
    var i :| 0 <= i <= |t| - |sub| && OccursAt(t, sub, i);
    assert (a + t)[|a| + i..|a| + i + |sub|] == t[i..i + |sub|];
    assert OccursAt(a + t, sub, |a| + i);
  }

  /** Every joined part is a substring of the joined text, so a substring search finds it. */
  lemma {:induction false} JoinContainsPart(parts: seq<string>, x: string)
    requires x in parts
    ensures Contains(Join(parts), x)
    decreases |parts|
  {
    if |parts| == 1 {
      ContainsPrefix(x, "");
      assert x + "" == x;
    } else if parts[0] == x {
      ContainsPrefix(x, "|" + Join(parts[1..]));
      assert x + ("|" + Join(parts[1..])) == Join(parts);
    } else {
      JoinContainsPart(parts[1..], x);
      ContainsInSuffix(parts[0] + "|", Join(parts[1..]), x);
      assert parts[0] + "|" + Join(parts[1..]) == Join(parts);
    }
  }
}
