/** Attention points per brand of the product reviews.

    The (brand, opinion) volumes of the negative opinions are filtered to
    the positive volumes, sorted by brand and then by value, both
    descending, and drawn as one word cloud per brand (opinion -> volume of
    that brand's rows) in a ceil(sqrt(n)) x floor(sqrt(n)) grid. */
module Brands {
  import opened Common
  import opened Aggregation
  import Grid

  /* ------------------------------------------------------------------ */
  /* Python string order                                                 */
  /* ------------------------------------------------------------------ */

  /** `a < b` on Python strings: lexicographic by code point. */
  predicate StrLt(a: string, b: string)
    decreases |a|
  {
    0 < |b| && (|a| == 0 || a[0] < b[0] || (a[0] == b[0] && StrLt(a[1..], b[1..])))
  }

  lemma {:induction false} StrLtIrreflexive(a: string)
    ensures !StrLt(a, a)
    decreases |a|
  {
    if 0 < |a| {
      StrLtIrreflexive(a[1..]);
    }
  }

  lemma {:induction false} StrLtTransitive(a: string, b: string, c: string)
    requires StrLt(a, b) && StrLt(b, c)
    ensures StrLt(a, c)
    decreases |a|
  {
    if 0 < |a| && a[0] == b[0] && b[0] == c[0] {
      StrLtTransitive(a[1..], b[1..], c[1..]);
    }
  }

  lemma {:induction false} StrLtTrichotomy(a: string, b: string)
    ensures a == b || StrLt(a, b) || StrLt(b, a)
    decreases |a|
  {
    if 0 < |a| && 0 < |b| && a[0] == b[0] {
      StrLtTrichotomy(a[1..], b[1..]);
      if a[1..] == b[1..] {
        assert a == [a[0]] + a[1..] && b == [b[0]] + b[1..];
      }
    }
  }

  /** `StrLt` is a strict total order on strings. */
  lemma StrLtIsStrictTotalOrder()
    ensures forall a :: !StrLt(a, a)
    ensures forall a, b, c :: StrLt(a, b) && StrLt(b, c) ==> StrLt(a, c)
    ensures forall a, b :: a == b || StrLt(a, b) || StrLt(b, a)
  {
    forall a ensures !StrLt(a, a) {
      StrLtIrreflexive(a);
    }
    forall a, b, c | StrLt(a, b) && StrLt(b, c) ensures StrLt(a, c) {
      StrLtTransitive(a, b, c);
    }
    forall a, b ensures a == b || StrLt(a, b) || StrLt(b, a) {
      StrLtTrichotomy(a, b);
    }
  }

  /* ------------------------------------------------------------------ */
  /* Rows                                                                */
  /* ------------------------------------------------------------------ */

  /** A row after line 89: brand and opinion columns, no dimensions. */
  datatype BrandRow = BrandRow(brand: string, opinion: string, value: real, volume: int)

  predicate NotNull(v: AggValue) {
    v.volume > 0
  }

  function RowsOf(recs: seq<Record>): (rows: seq<BrandRow>)
    requires forall i :: 0 <= i < |recs| ==> 2 <= |recs[i].keys|
    ensures |rows| == |recs|
    ensures forall i :: 0 <= i < |recs| ==>
              rows[i] == BrandRow(recs[i].keys[0], recs[i].keys[1], recs[i].value, recs[i].volume)
  {
    seq(|recs|, i requires 0 <= i < |recs| => BrandRow(recs[i].keys[0], recs[i].keys[1], recs[i].value, recs[i].volume))
  }

  /** `sort_values(by=["brand", "value"], ascending=False)`: a may come
      before b. */
  predicate BrandOrder(a: BrandRow, b: BrandRow) {
    StrLt(b.brand, a.brand) || (a.brand == b.brand && a.value >= b.value)
  }

  lemma BrandOrderIsTotalPreorder()
    ensures TotalPreorder(BrandOrder)
  {
    StrLtIsStrictTotalOrder();
  }

  /** Lines 85-90: drop the rows of volume 0 or less, take brand and opinion
      from dimensions 0 and 1, sort by brand and value, descending. An empty
      answer gives a frame without columns, so the filter's read of
      `volume` raises KeyError. */
  function BrandTable(values: seq<AggValue>): Result<seq<BrandRow>> {
    if values == [] then Err(KeyError("volume"))
    else match Project(Filter(values, NotNull), 2)
      case Err(e) => Err(e)
      case Ok(recs) => Ok(SortBy(RowsOf(recs), BrandOrder))
  }

  /** The table fails with KeyError on `volume` exactly when the answer is
      empty, and with IndexError exactly when a row of positive volume has
      fewer than two dimensions. */
  lemma BrandTableFails(values: seq<AggValue>)
    ensures var r := BrandTable(values);
            && (r.Ok? <==> values != [] && forall v :: v in values && v.volume > 0 ==> 2 <= |v.dimensions|)
            && (r.Err? ==> r.error == if values == [] then KeyError("volume") else IndexError)
  {
    var kept := Filter(values, NotNull);
    if values == [] {
    } else if Project(kept, 2).Err? {
      var i :| 0 <= i < |kept| && |kept[i].dimensions| < 2;
      assert kept[i] in kept;
    } else {
      forall v | v in values && v.volume > 0 ensures 2 <= |v.dimensions| {
        assert v in kept;
        var i :| 0 <= i < |kept| && kept[i] == v;
      }
    }
  }

  /** The table is ordered by brand descending and, within a brand, by
      value descending. */
  lemma BrandTableSorted(values: seq<AggValue>)
    requires BrandTable(values).Ok?
    ensures var rows := BrandTable(values).value;
            && Sorted(rows, BrandOrder)
            && forall i, j :: 0 <= i < j < |rows| ==>
                 !StrLt(rows[i].brand, rows[j].brand) &&
                 (rows[i].brand == rows[j].brand ==> rows[i].value >= rows[j].value)
  {
    var recs := Project(Filter(values, NotNull), 2).value;
    var rows := SortBy(RowsOf(recs), BrandOrder);
    BrandOrderIsTotalPreorder();
    SortBySorted(RowsOf(recs), BrandOrder);
    forall i, j | 0 <= i < j < |rows|
      ensures !StrLt(rows[i].brand, rows[j].brand) &&
              (rows[i].brand == rows[j].brand ==> rows[i].value >= rows[j].value)
    {
      BrandOrderMeans(rows[i], rows[j]);
    }
  }

  /** A row allowed before another never has the smaller brand. */
  lemma BrandOrderMeans(a: BrandRow, b: BrandRow)
    requires BrandOrder(a, b)
    ensures !StrLt(a.brand, b.brand)
    ensures a.brand == b.brand ==> a.value >= b.value
  {
    if StrLt(a.brand, b.brand) {
      if StrLt(b.brand, a.brand) {
        StrLtTransitive(a.brand, b.brand, a.brand);
      }
      StrLtIrreflexive(a.brand);
    }
  }

  /** Every table row comes from a row of positive volume. */
  lemma BrandTableRowsFromAnswer(values: seq<AggValue>)
    requires BrandTable(values).Ok?
    ensures forall x :: x in BrandTable(values).value ==>
              exists v :: v in values && v.volume > 0 && 2 <= |v.dimensions| &&
                          x == BrandRow(v.dimensions[0], v.dimensions[1], v.value, v.volume)
  {
    var kept := Filter(values, NotNull);
    var recs := Project(kept, 2).value;
    var rows := RowsOf(recs);
    assert BrandTable(values).value == SortBy(rows, BrandOrder);
    forall x | x in SortBy(rows, BrandOrder)
      ensures exists v :: v in values && v.volume > 0 && 2 <= |v.dimensions| &&
                          x == BrandRow(v.dimensions[0], v.dimensions[1], v.value, v.volume)
    {
      assert x in multiset(rows);
      var i :| 0 <= i < |rows| && rows[i] == x;
      assert kept[i] in kept;
    }
  }

  /** Every row of positive volume is in the table, as often as it occurs
      among the kept rows. */
  lemma BrandTableKeepsAnswer(values: seq<AggValue>)
    requires BrandTable(values).Ok?
    ensures multiset(BrandTable(values).value) == multiset(RowsOf(Project(Filter(values, NotNull), 2).value))
    ensures forall v :: v in values && v.volume > 0 ==>
              2 <= |v.dimensions| && BrandRow(v.dimensions[0], v.dimensions[1], v.value, v.volume) in BrandTable(values).value
  {
    forall v | v in values && v.volume > 0
      ensures 2 <= |v.dimensions| && BrandRow(v.dimensions[0], v.dimensions[1], v.value, v.volume) in BrandTable(values).value
    {
      KeptRowInTable(values, v);
    }
  }

  lemma KeptRowInTable(values: seq<AggValue>, v: AggValue)
    requires BrandTable(values).Ok?
    requires v in values && v.volume > 0
    ensures 2 <= |v.dimensions| && BrandRow(v.dimensions[0], v.dimensions[1], v.value, v.volume) in BrandTable(values).value
  {
    var kept := Filter(values, NotNull);
    var recs := Project(kept, 2).value;
    var rows := RowsOf(recs);
    assert v in kept;
    var i :| 0 <= i < |kept| && kept[i] == v;
    assert rows[i] == BrandRow(v.dimensions[0], v.dimensions[1], v.value, v.volume);
    assert rows[i] in multiset(SortBy(rows, BrandOrder));
  }

  /* ------------------------------------------------------------------ */
  /* Word clouds                                                         */
  /* ------------------------------------------------------------------ */

  function BrandColumn(rows: seq<BrandRow>): (c: seq<string>)
    ensures |c| == |rows|
    ensures forall i :: 0 <= i < |rows| ==> c[i] == rows[i].brand
  {
    seq(|rows|, i requires 0 <= i < |rows| => rows[i].brand)
  }

  /** `list(df["brand"].unique())` */
  function BrandList(rows: seq<BrandRow>): seq<string> {
    Distinct(BrandColumn(rows))
  }

  /** Over the sorted table the brands are listed once each, every brand of
      the table, in strictly descending order. */
  lemma BrandListDescending(rows: seq<BrandRow>)
    requires Sorted(rows, BrandOrder)
    ensures var brands := BrandList(rows);
            && (forall b :: b in brands <==> exists x :: x in rows && x.brand == b)
            && (forall i, j :: 0 <= i < j < |brands| ==> StrLt(brands[j], brands[i]))
  {
    var c := BrandColumn(rows);
    var brands := Distinct(c);
    DistinctOrdered(c);
    StrLtIsStrictTotalOrder();
    forall b | b in c ensures exists x :: x in rows && x.brand == b {
      var i :| 0 <= i < |c| && c[i] == b;
      assert rows[i] in rows;
    }
    forall x | x in rows ensures x.brand in c {
      var i :| 0 <= i < |rows| && rows[i] == x;
      assert c[i] == x.brand;
    }
    forall i, j | 0 <= i < j < |brands| ensures StrLt(brands[j], brands[i]) {
      var p, q := FirstIndex(c, brands[i]), FirstIndex(c, brands[j]);
      assert p < q;
      assert BrandOrder(rows[p], rows[q]);
    }
  }

  /** Lines 100-122: the grid cells of the brands' word clouds, in brand
      order, on a grid of `col` columns and enough rows for every brand
      (the script's `ceil(sqrt(n))` rows can be one short: see
      `Grid.Layout`). */
  function BrandPanels(rows: seq<BrandRow>): (cells: seq<(nat, nat)>)
    ensures |cells| == |BrandList(rows)|
    ensures forall i :: 0 <= i < |cells| ==>
              cells[i].0 < Grid.FittedRows(|BrandList(rows)|) && cells[i].1 < Grid.Cols(|BrandList(rows)|)
    ensures NoDuplicates(cells)
  {
    Grid.FittedLayout(|BrandList(rows)|)
  }

  /** `{row.opinion: row.volume for row in df[df["brand"] == brand].itertuples()}` */
  function BrandFrequencies(rows: seq<BrandRow>, brand: string): (m: map<string, int>)
    ensures forall o :: o in m <==> exists x :: x in rows && x.brand == brand && x.opinion == o
    ensures forall o :: o in m ==> exists x :: x in rows && x.brand == brand && x.opinion == o && m[o] == x.volume
  {
    if rows == [] then map[]
    else
      var last := rows[|rows| - 1];
      var init := BrandFrequencies(rows[..|rows| - 1], brand);
      assert forall x :: x in rows <==> x in rows[..|rows| - 1] || x == last;
      if last.brand == brand then init[last.opinion := last.volume] else init
  }

  /** With each (brand, opinion) pair once, a brand's word cloud gives each
      of its opinions exactly that row's volume, which is positive. */
  lemma BrandFrequenciesExact(rows: seq<BrandRow>, brand: string, x: BrandRow)
    requires forall i, j :: 0 <= i < j < |rows| ==> (rows[i].brand, rows[i].opinion) != (rows[j].brand, rows[j].opinion)
    requires forall y :: y in rows ==> y.volume > 0
    requires x in rows && x.brand == brand
    ensures x.opinion in BrandFrequencies(rows, brand)
    ensures BrandFrequencies(rows, brand)[x.opinion] == x.volume > 0
  {
    var m := BrandFrequencies(rows, brand);
    var y :| y in rows && y.brand == brand && y.opinion == x.opinion && m[x.opinion] == y.volume;
    var i :| 0 <= i < |rows| && rows[i] == x;
    var j :| 0 <= j < |rows| && rows[j] == y;
    assert i == j;
  }
}
