/**
 * The option lists of the dropdowns: a sentinel followed by the distinct
 * non-null values of a column in order of first appearance
 * (`[sentinel] + list(df[col].dropna().unique())`), and the locations sheet
 * with its built-in default.
 */
module Choices {
  import opened Seqs
  import opened Records

  /** The non-null values of a column, as a set (what `nunique` counts). */
  function NonNullValues(col: seq<Cell>): set<string> {
    set i | 0 <= i < |col| && col[i].Text? :: col[i].value
  }

  /** `col.dropna().unique()`: each non-null value once, where it first appears. */
  function DistinctNonNull(col: seq<Cell>): (r: seq<string>)
    ensures NoDuplicates(r)
    ensures forall s :: s in r <==> Text(s) in col
    ensures |r| <= |col|
  {
    if col == [] then []
    else
      var init := col[..|col| - 1];
      var last := col[|col| - 1];
      assert col == init + [last];
      var r := DistinctNonNull(init);
      if last.Text? && last.value !in r then r + [last.value] else r
  }

  /** Where a value first appears in a column. */
  function FirstPos(col: seq<Cell>, c: Cell): (p: nat)
    requires c in col
    ensures p < |col| && col[p] == c
    ensures forall k :: 0 <= k < p ==> col[k] != c
  {
    var k := FirstWhere(col, (x: Cell) => x == c);
    assert k.Some? by {
      var i :| 0 <= i < |col| && col[i] == c;
    }
    k.value
  }

  /** A value first seen in a prefix is first seen at the same place in the whole column. */
  lemma FirstPosInPrefix(col: seq<Cell>, n: nat, c: Cell)
    requires n <= |col| && c in col[..n]
    ensures FirstPos(col, c) == FirstPos(col[..n], c)
  {
    var p, q := FirstPos(col, c), FirstPos(col[..n], c);
    assert col[..n][q] == col[q];
    assert p <= q;
    assert col[..n][p] == col[p];
  }

  /** `a` and `b` both occur in the column, `a` first. */
  predicate FirstSeenBefore(col: seq<Cell>, a: string, b: string) {
    Text(a) in col && Text(b) in col && FirstPos(col, Text(a)) < FirstPos(col, Text(b))
  }

  /** The distinct values keep the order in which they first appear in the column. */
  lemma {:induction false} DistinctNonNullInFirstAppearanceOrder(col: seq<Cell>)
    ensures forall i, j :: 0 <= i < j < |DistinctNonNull(col)| ==>
      FirstSeenBefore(col, DistinctNonNull(col)[i], DistinctNonNull(col)[j])
  {
    if col != [] {
      var n := |col| - 1;
      var init, last := col[..n], col[n];
      assert col == init + [last];
      DistinctNonNullInFirstAppearanceOrder(init);
      var r0, r := DistinctNonNull(init), DistinctNonNull(col);
      forall i, j | 0 <= i < j < |r|
        ensures FirstSeenBefore(col, r[i], r[j])
      {
        assert r[i] in r0;
        assert Text(r[i]) in init;
        FirstPosInPrefix(col, n, Text(r[i]));
        if j < |r0| {
          assert FirstSeenBefore(init, r0[i], r0[j]);
          FirstPosInPrefix(col, n, Text(r[j]));
        } else {
          assert r[j] == last.value && Text(r[j]) == col[n];
          assert Text(r[j]) !in init;
          assert forall k :: 0 <= k < n ==> col[k] == init[k];
          assert FirstPos(col, Text(r[j])) == n;
        }
      }
    }
  }

  /** A duplicate-free list has as many elements as its set. */
  lemma {:induction false} NoDuplicatesCardinality(s: seq<string>)
    requires NoDuplicates(s)
    ensures |set x | x in s| == |s|
  {
    if s != [] {
      var init := s[..|s| - 1];
      NoDuplicatesCardinality(init);
      assert (set x | x in s) == (set x | x in init) + {s[|s| - 1]};
      assert s[|s| - 1] !in init;
    }
  }

  /** `nunique()` of a column is the number of its non-sentinel dropdown choices. */
  lemma DistinctCountIsChoiceCount(col: seq<Cell>)
    ensures |NonNullValues(col)| == |DistinctNonNull(col)|
    ensures |NonNullValues(col)| <= |col|
  {
    var r := DistinctNonNull(col);
    NoDuplicatesCardinality(r);
    assert (set x | x in r) == NonNullValues(col) by {
      forall x ensures x in r <==> x in NonNullValues(col) {
        if x in r {
          var i :| 0 <= i < |col| && col[i] == Text(x);
        }
      }
    }
  }

  /**
   * A dropdown: the sentinel, then each non-null value of the column exactly
   * once, in the order in which the values first appear.
   */
  function Choices(sentinel: string, col: seq<Cell>): (r: seq<string>)
    ensures |r| >= 1 && r[0] == sentinel
    ensures NoDuplicates(r[1..])
    ensures forall s :: s in r[1..] <==> Text(s) in col
    ensures forall i, j :: 1 <= i < j < |r| ==> FirstSeenBefore(col, r[i], r[j])
  {
    var d := DistinctNonNull(col);
    DistinctNonNullInFirstAppearanceOrder(col);
    var r := [sentinel] + d;
    assert r[1..] == d;
    assert forall i, j :: 1 <= i < j < |r| ==> r[i] == d[i - 1] && r[j] == d[j - 1];
    r
  }

  /** The filter dropdowns of the browse page ("Todos" first). */
  function FilterChoices(table: seq<Row>, f: Field): (r: seq<string>)
    ensures r == Choices("Todos", Column(table, f))
    ensures forall s :: s in r[1..] <==> exists i :: 0 <= i < |table| && FieldOf(table[i], f) == Text(s)
  {
    var col := Column(table, f);
    var r := Choices("Todos", col);
    assert forall s :: Text(s) in col <==> exists i :: 0 <= i < |table| && FieldOf(table[i], f) == Text(s);
    r
  }

  /** The NI dropdown of the label page ("" first). */
  function NiChoices(table: seq<Row>): (r: seq<string>)
    ensures r == Choices("", Column(table, Ni))
    ensures forall s :: s in r[1..] <==> exists i :: 0 <= i < |table| && table[i].ni == Text(s)
  {
    var col := Column(table, Ni);
    var r := Choices("", col);
    assert forall s :: Text(s) in col <==> exists i :: 0 <= i < |table| && table[i].ni == Text(s);
    r
  }

  /** The five areas used when the locations sheet is empty or missing. */
  const DefaultLocations: seq<string> := ["Área 1", "Área 2", "Área 3", "Estoque A", "Estoque B"]

  /** The "Onde" column of the locations sheet, or the default areas when it is empty. */
  function LocationsOrDefault(loaded: seq<Cell>): (r: seq<Cell>)
    ensures |r| > 0
    ensures |loaded| > 0 ==> r == loaded
    ensures |loaded| == 0 ==>
      (|r| == |DefaultLocations| && forall i :: 0 <= i < |r| ==> r[i] == Text(DefaultLocations[i]))
  {
    if |loaded| == 0 then
      [Text("Área 1"), Text("Área 2"), Text("Área 3"), Text("Estoque A"), Text("Estoque B")]
    else loaded
  }

  /** The area box of the form; its three-area fallback applies only to an empty locations table. */
  function AreaFormChoices(locations: seq<Cell>): seq<string> {
    if |locations| > 0 then Choices("", locations) else ["Área 1", "Área 2", "Área 3"]
  }

  /**
   * Once the default is applied the fallback is never used: the area choices
   * are "" then the distinct locations, and with an empty sheet exactly ""
   * then the five default areas.
   */
  lemma AreaChoicesFromLocations(loaded: seq<Cell>)
    ensures AreaFormChoices(LocationsOrDefault(loaded)) == Choices("", LocationsOrDefault(loaded))
    ensures |loaded| == 0 ==> AreaFormChoices(LocationsOrDefault(loaded)) == [""] + DefaultLocations
  {
    if |loaded| == 0 {
      var d := LocationsOrDefault(loaded);
      var a1, a2, a3, e1, e2 := Text("Área 1"), Text("Área 2"), Text("Área 3"), Text("Estoque A"), Text("Estoque B");
      assert d == [a1, a2, a3, e1, e2];
      assert DistinctNonNull([a1]) == ["Área 1"] by { assert [a1][..0] == []; }
      assert DistinctNonNull([a1, a2]) == ["Área 1", "Área 2"] by { assert [a1, a2][..1] == [a1]; }
      assert DistinctNonNull([a1, a2, a3]) == ["Área 1", "Área 2", "Área 3"] by {
        assert [a1, a2, a3][..2] == [a1, a2];
      }
      assert DistinctNonNull([a1, a2, a3, e1]) == ["Área 1", "Área 2", "Área 3", "Estoque A"] by {
        assert [a1, a2, a3, e1][..3] == [a1, a2, a3];
      }
      assert d[..4] == [a1, a2, a3, e1];
      assert DistinctNonNull(d) == DefaultLocations;
    }
  }
}
